/** The `ingredients` table and the statements of backend/models/ingredientModel.js. */
module IngredientModel {
  import opened Records
  import opened Table

  class IngredientTable {
    var rows: seq<Ingredient>
    /** The AUTO_INCREMENT counter of `ingredients.id`. */
    var nextId: int

    ghost predicate Valid()
      reads this
    {
      AutoIncremented(rows, ChildKey, nextId)
    }

    constructor ()
      ensures Valid() && rows == [] && nextId == 1
    {
      rows := [];
      nextId := 1;
    }

    /** `SELECT * FROM ingredients WHERE recipe_id = ?`: exactly the recipe's rows, in table order. */
    function GetAllIngredients(recipeId: int): (r: seq<Ingredient>)
      reads this
      ensures forall x | x in r :: x in rows && x.recipeId == recipeId
      ensures forall x | x in rows && x.recipeId == recipeId :: x in r
    {
      Where(rows, ParentKey, recipeId)
    }

    /** `INSERT INTO ingredients (recipe_id, name, quantity)`: one row carrying the arguments verbatim, under a fresh id. */
    method CreateIngredient(recipeId: int, data: IngredientData) returns (id: int)
      requires Valid()
      modifies this
      ensures Valid()
      ensures id == old(nextId) && nextId == id + 1
      ensures rows == old(rows) + [Child(id, recipeId, data)]
      ensures forall x | x in old(rows) :: x.id != id
    {
      id := nextId;
      InsertKeepsAutoIncrement(rows, ChildKey, nextId, Child(id, recipeId, data));
      rows := rows + [Child(id, recipeId, data)];
      nextId := nextId + 1;
    }

    /** `DELETE FROM ingredients WHERE recipe_id = ?`: every row of the recipe goes; returns how many went. */
    method DeleteIngredients(recipeId: int) returns (affected: nat)
      requires Valid()
      modifies this
      ensures Valid() && nextId == old(nextId)
      ensures rows == WhereNot(old(rows), ParentKey, recipeId)
      ensures affected == |Where(old(rows), ParentKey, recipeId)|
    {
      affected := |Where(rows, ParentKey, recipeId)|;
      DeleteKeepsAutoIncrement(rows, ChildKey, nextId, ParentKey, recipeId);
      rows := WhereNot(rows, ParentKey, recipeId);
    }

    /** Transaction rollback: the rows return to a snapshot; the AUTO_INCREMENT counter is not given back. */
    method RestoreRows(saved: seq<Ingredient>)
      requires Valid() && AutoIncremented(saved, ChildKey, nextId)
      modifies this
      ensures Valid() && rows == saved && nextId == old(nextId)
    {
      rows := saved;
    }
  }
}
