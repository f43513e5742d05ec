/** The `favorites` table and the statements of backend/models/favoriteModel.js. */
module FavoriteModel {
  import opened Records
  import opened Table

  /** What remains of a favorites list once the entry with favorite id `id` is deleted. */
  function WithoutFavorite(items: seq<Favorite>, id: int): (r: seq<Favorite>)
    ensures forall f | f in r :: f in items && f.id != id
    ensures forall f | f in items && f.id != id :: f in r
  {
    WhereNot(items, FavoriteKey, id)
  }

  /**
   * Whether a recipe is among the favorites: some entry carries its recipe id. This is the
   * per-card test of the client, and the lookup the server's check route means to perform.
   */
  function IsFavorite(items: seq<Favorite>, recipeId: int): (b: bool)
    ensures b <==> exists i | 0 <= i < |items| :: items[i].recipeId == recipeId
  {
    var matching := Where(items, FavoriteRecipe, recipeId);
    if matching == [] then
      NoFavoriteFound(items, recipeId);
      false
    else
      assert matching[0] in items;
      true
  }

  lemma NoFavoriteFound(items: seq<Favorite>, recipeId: int)
    requires Where(items, FavoriteRecipe, recipeId) == []
    ensures forall i | 0 <= i < |items| :: items[i].recipeId != recipeId
  {
    forall i | 0 <= i < |items| ensures items[i].recipeId != recipeId {
      assert items[i] in items;
    }
  }

  /** Removing an id that no entry has leaves the list as it was; removing twice is removing once. */
  lemma RemoveAbsentFavorite(items: seq<Favorite>, id: int)
    ensures (forall i | 0 <= i < |items| :: items[i].id != id) ==> WithoutFavorite(items, id) == items
    ensures WithoutFavorite(WithoutFavorite(items, id), id) == WithoutFavorite(items, id)
  {
    if forall i | 0 <= i < |items| :: items[i].id != id {
      forall f | f in items ensures FavoriteKey(f) != id { }
      NoMatches(items, FavoriteKey, id);
      DeleteOfAbsentKey(items, FavoriteKey, id);
    }
    DeleteIdempotent(items, FavoriteKey, id);
  }

  /** Removal keeps the surviving entries in their original relative order: it distributes over concatenation. */
  lemma RemoveKeepsOrder(a: seq<Favorite>, b: seq<Favorite>, id: int)
    ensures WithoutFavorite(a + b, id) == WithoutFavorite(a, id) + WithoutFavorite(b, id)
  {
    WhereNotConcat(a, b, FavoriteKey, id);
  }

  class FavoriteTable {
    var rows: seq<Favorite>
    /** The AUTO_INCREMENT counter of `favorites.id`. */
    var nextId: int

    ghost predicate Valid()
      reads this
    {
      AutoIncremented(rows, FavoriteKey, nextId)
    }

    constructor ()
      ensures Valid() && rows == [] && nextId == 1
    {
      rows := [];
      nextId := 1;
    }

    /** `SELECT * FROM favorites`: the whole table in storage order. */
    function GetAllFavorites(): (r: seq<Favorite>)
      reads this
      ensures r == rows
    {
      rows
    }

    /** `INSERT INTO favorites (recipe_id)`: one new row for the recipe; returns its fresh favorite id. */
    method CreateFavorite(recipeId: int) returns (id: int)
      requires Valid()
      modifies this
      ensures Valid()
      ensures id == old(nextId) && nextId == id + 1
      ensures rows == old(rows) + [Favorite(id, recipeId)]
      ensures forall f | f in old(rows) :: f.id != id
    {
      id := nextId;
      InsertKeepsAutoIncrement(rows, FavoriteKey, nextId, Favorite(id, recipeId));
      rows := rows + [Favorite(id, recipeId)];
      nextId := nextId + 1;
    }

    /** `DELETE FROM favorites WHERE id = ?`: removes only that favorite; 1 if it existed, else 0 and no change. */
    method DeleteFavoriteById(favoriteId: int) returns (affected: nat)
      requires Valid()
      modifies this
      ensures Valid() && nextId == old(nextId)
      ensures rows == WithoutFavorite(old(rows), favoriteId)
      ensures affected == (if exists i | 0 <= i < |old(rows)| :: old(rows)[i].id == favoriteId then 1 else 0)
      ensures affected == 0 ==> rows == old(rows)
    {
      affected := |Where(rows, FavoriteKey, favoriteId)|;
      UniqueMatchesAtMostOne(rows, FavoriteKey, favoriteId);
      if affected == 0 {
        forall i | 0 <= i < |rows| ensures rows[i].id != favoriteId {
          assert rows[i] in rows;
        }
        RemoveAbsentFavorite(rows, favoriteId);
      } else {
        var f := Where(rows, FavoriteKey, favoriteId)[0];
        assert f in rows;
      }
      DeleteKeepsAutoIncrement(rows, FavoriteKey, nextId, FavoriteKey, favoriteId);
      rows := WithoutFavorite(rows, favoriteId);
    }
  }
}
