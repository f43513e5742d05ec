/** The `recipes` table and the statements of backend/models/recipeModel.js. */
module RecipeModel {
  import opened Wrappers
  import opened Records
  import opened Table

  /**
   * `UPDATE recipes SET name = ?, description = ? WHERE id = ?`: matching rows take the
   * new name and description; ids, row order and every other row stay as they were.
   */
  function Updated(rows: seq<Recipe>, id: int, name: string, description: string): (r: seq<Recipe>)
    ensures |r| == |rows|
    ensures forall i | 0 <= i < |rows| :: r[i].id == rows[i].id
    ensures forall i | 0 <= i < |rows| && rows[i].id != id :: r[i] == rows[i]
    ensures forall i | 0 <= i < |rows| && rows[i].id == id :: r[i].name == name && r[i].description == description
  {
    if rows == [] then []
    else
      var head := if rows[0].id == id then Recipe(id, name, description) else rows[0];
      [head] + Updated(rows[1..], id, name, description)
  }

  /** An update whose id matches no row changes nothing. */
  lemma UpdateOfAbsentId(rows: seq<Recipe>, id: int, name: string, description: string)
    requires Where(rows, RecipeKey, id) == []
    ensures Updated(rows, id, name, description) == rows
  {
    var r := Updated(rows, id, name, description);
    forall i | 0 <= i < |rows| ensures r[i] == rows[i] {
      assert rows[i] in rows;
    }
  }

  /** A freshly inserted recipe is the only row with its id. */
  lemma CreateReadBack(rows: seq<Recipe>, nextId: int, name: string, description: string)
    requires AutoIncremented(rows, RecipeKey, nextId)
    ensures Where(rows + [Recipe(nextId, name, description)], RecipeKey, nextId) == [Recipe(nextId, name, description)]
  {
    forall x | x in rows ensures RecipeKey(x) != nextId {
      var m :| 0 <= m < |rows| && rows[m] == x;
    }
    NoMatches(rows, RecipeKey, nextId);
    WhereConcat(rows, [Recipe(nextId, name, description)], RecipeKey, nextId);
  }

  /** An update keeps every id, so ids stay unique. */
  lemma UpdateKeepsIds(rows: seq<Recipe>, id: int, name: string, description: string)
    requires UniqueKeys(rows, RecipeKey)
    ensures UniqueKeys(Updated(rows, id, name, description), RecipeKey)
  {
    var r := Updated(rows, id, name, description);
    forall i, j | 0 <= i < j < |r| ensures RecipeKey(r[i]) != RecipeKey(r[j]) {
      assert RecipeKey(rows[i]) != RecipeKey(rows[j]);
    }
  }

  /** Under unique ids, reading the updated id back yields the one row carrying the new fields. */
  lemma UpdateReadBack(rows: seq<Recipe>, id: int, name: string, description: string)
    requires UniqueKeys(rows, RecipeKey) && Where(rows, RecipeKey, id) != []
    ensures Where(Updated(rows, id, name, description), RecipeKey, id) == [Recipe(id, name, description)]
  {
    var r := Updated(rows, id, name, description);
    var m := MatchIndex(rows, id);
    UpdateKeepsIds(rows, id, name, description);
    UniqueMatchesAtMostOne(r, RecipeKey, id);
    var w := Where(r, RecipeKey, id);
    var row := Recipe(id, name, description);
    assert r[m].id == id && r[m].name == name && r[m].description == description;
    assert r[m] == row;
    assert RecipeKey(row) == id;
    assert row in r;
    assert row in w;
    OnlyElement(w, row);
  }

  lemma OnlyElement(w: seq<Recipe>, row: Recipe)
    requires |w| <= 1 && row in w
    ensures w == [row]
  {
  }

  /** The position of a row with the given id. */
  lemma MatchIndex(rows: seq<Recipe>, id: int) returns (m: nat)
    requires Where(rows, RecipeKey, id) != []
    ensures m < |rows| && rows[m].id == id
  {
    var x := Where(rows, RecipeKey, id)[0];
    assert x in Where(rows, RecipeKey, id);
    m :| 0 <= m < |rows| && rows[m] == x;
  }

  class RecipeTable {
    var rows: seq<Recipe>
    /** The AUTO_INCREMENT counter of `recipes.id`. */
    var nextId: int

    ghost predicate Valid()
      reads this
    {
      AutoIncremented(rows, RecipeKey, nextId)
    }

    constructor ()
      ensures Valid() && rows == [] && nextId == 1
    {
      rows := [];
      nextId := 1;
    }

    /** `SELECT * FROM recipes`: the whole table in storage order. */
    function GetAllRecipes(): (r: seq<Recipe>)
      reads this
      ensures r == rows
    {
      rows
    }

    /** `SELECT * FROM recipes WHERE id = ?`, first row: the row with that id, or nothing when none has it. */
    function GetRecipeById(id: int): (r: Option<Recipe>)
      reads this
      ensures r.None? <==> forall i | 0 <= i < |rows| :: rows[i].id != id
      ensures r.Some? ==> r.value in rows && r.value.id == id
    {
      var matches := Where(rows, RecipeKey, id);
      if matches == [] then
        NoRowFound(id);
        None
      else
        assert matches[0] in matches;
        Some(matches[0])
    }

    lemma NoRowFound(id: int)
      requires Where(rows, RecipeKey, id) == []
      ensures forall i | 0 <= i < |rows| :: rows[i].id != id
    {
      forall i | 0 <= i < |rows| ensures rows[i].id != id {
        assert rows[i] in rows;
      }
    }

    /** `INSERT INTO recipes (name, description)`: one new row whose id is fresh, returned as `insertId`. */
    method CreateRecipe(name: string, description: string) returns (id: int)
      requires Valid()
      modifies this
      ensures Valid()
      ensures id == old(nextId) && nextId == id + 1
      ensures rows == old(rows) + [Recipe(id, name, description)]
      ensures forall x | x in old(rows) :: x.id != id
    {
      id := nextId;
      InsertKeepsAutoIncrement(rows, RecipeKey, nextId, Recipe(id, name, description));
      rows := rows + [Recipe(id, name, description)];
      nextId := nextId + 1;
    }

    /** The UPDATE statement; `affectedRows` is the number of matched rows, 0 or 1. */
    method UpdateRecipe(id: int, name: string, description: string) returns (affected: nat)
      requires Valid()
      modifies this
      ensures Valid() && nextId == old(nextId)
      ensures rows == Updated(old(rows), id, name, description)
      ensures affected == |Where(old(rows), RecipeKey, id)| && affected <= 1
      ensures affected == 0 ==> rows == old(rows)
    {
      affected := |Where(rows, RecipeKey, id)|;
      UniqueMatchesAtMostOne(rows, RecipeKey, id);
      if affected == 0 {
        UpdateOfAbsentId(rows, id, name, description);
      }
      rows := Updated(rows, id, name, description);
    }

    /** `DELETE FROM recipes WHERE id = ?`: removes that row only, returns 0 or 1. */
    method DeleteRecipe(id: int) returns (affected: nat)
      requires Valid()
      modifies this
      ensures Valid() && nextId == old(nextId)
      ensures rows == WhereNot(old(rows), RecipeKey, id)
      ensures affected == |Where(old(rows), RecipeKey, id)| && affected <= 1
    {
      affected := |Where(rows, RecipeKey, id)|;
      UniqueMatchesAtMostOne(rows, RecipeKey, id);
      DeleteKeepsAutoIncrement(rows, RecipeKey, nextId, RecipeKey, id);
      rows := WhereNot(rows, RecipeKey, id);
    }

    /** Transaction rollback: the rows return to a snapshot; the AUTO_INCREMENT counter is not given back. */
    method RestoreRows(saved: seq<Recipe>)
      requires Valid() && AutoIncremented(saved, RecipeKey, nextId)
      modifies this
      ensures Valid() && rows == saved && nextId == old(nextId)
    {
      rows := saved;
    }
  }
}
