/**
 * The favorite logic of src/components/Recipes.jsx: each card's favorite flag and the action
 * the toggle button dispatches.
 */
module RecipesView {
  import opened Records
  import opened FavoriteModel

  /** The one action a toggle dispatches: delete a favorite entry by its id, or add the recipe. */
  datatype FavoriteAction = DeleteFavorite(favoriteId: int) | AddFavorite(recipeId: int)

  /** `favorites.find(fav => fav.recipe_id === recipeId)`: the position of the first matching entry. */
  function FirstFavoriteOf(favorites: seq<Favorite>, recipeId: int): (k: nat)
    requires IsFavorite(favorites, recipeId)
    ensures k < |favorites| && favorites[k].recipeId == recipeId
    ensures forall j | 0 <= j < k :: favorites[j].recipeId != recipeId
  {
    if favorites[0].recipeId == recipeId then
      0
    else
      assert IsFavorite(favorites[1..], recipeId) by {
        var i :| 0 <= i < |favorites| && favorites[i].recipeId == recipeId;
        assert favorites[1..][i - 1] == favorites[i];
      }
      1 + FirstFavoriteOf(favorites[1..], recipeId)
  }

  /**
   * toggleFavoriteHandler: a recipe that is a favorite has the first of its entries deleted;
   * any other recipe is added.
   */
  function ToggleFavorite(favorites: seq<Favorite>, recipeId: int): (a: FavoriteAction)
    ensures a.AddFavorite? <==> !IsFavorite(favorites, recipeId)
    ensures a.AddFavorite? ==> a.recipeId == recipeId
    ensures a.DeleteFavorite? ==>
      exists k | 0 <= k < |favorites| ::
        && favorites[k] == Favorite(a.favoriteId, recipeId)
        && forall j | 0 <= j < k :: favorites[j].recipeId != recipeId
  {
    if IsFavorite(favorites, recipeId) then
      var k := FirstFavoriteOf(favorites, recipeId);
      DeleteFavorite(favorites[k].id)
    else
      AddFavorite(recipeId)
  }

  /**
   * When a recipe has a single favorite entry, the delete that the toggle dispatches, once the
   * store removes that id, leaves the recipe without a favorite, and every other recipe's
   * flag as it was when the entry ids are unique.
   */
  lemma ToggleOffUnmarks(favorites: seq<Favorite>, recipeId: int, other: int)
    requires IsFavorite(favorites, recipeId)
    requires forall i, j | 0 <= i < j < |favorites| :: favorites[i].recipeId == recipeId ==> favorites[j].recipeId != recipeId
    requires forall i, j | 0 <= i < j < |favorites| :: favorites[i].id != favorites[j].id
    ensures ToggleFavorite(favorites, recipeId).DeleteFavorite?
    ensures !IsFavorite(WithoutFavorite(favorites, ToggleFavorite(favorites, recipeId).favoriteId), recipeId)
    ensures other != recipeId ==>
      IsFavorite(WithoutFavorite(favorites, ToggleFavorite(favorites, recipeId).favoriteId), other)
        == IsFavorite(favorites, other)
  {
    var k := FirstFavoriteOf(favorites, recipeId);
    var rest := WithoutFavorite(favorites, favorites[k].id);
    forall f | f in rest ensures f.recipeId != recipeId {
      var i :| 0 <= i < |favorites| && favorites[i] == f;
      if i < k {
        assert favorites[i].recipeId != recipeId;
      } else if i > k {
        assert favorites[k].recipeId == recipeId ==> favorites[i].recipeId != recipeId;
      }
    }
    NoEntryNoFavorite(rest, recipeId);
    if other != recipeId {
      OtherFlagKept(favorites, k, other);
    }
  }

  lemma NoEntryNoFavorite(items: seq<Favorite>, recipeId: int)
    requires forall f | f in items :: f.recipeId != recipeId
    ensures !IsFavorite(items, recipeId)
  {
    forall i | 0 <= i < |items| ensures items[i].recipeId != recipeId {
      assert items[i] in items;
    }
  }

  /** Deleting the entry at `k` by its id, when ids are unique, keeps the flag of a recipe that entry is not for. */
  lemma OtherFlagKept(favorites: seq<Favorite>, k: nat, other: int)
    requires k < |favorites| && favorites[k].recipeId != other
    requires forall i, j | 0 <= i < j < |favorites| :: favorites[i].id != favorites[j].id
    ensures IsFavorite(WithoutFavorite(favorites, favorites[k].id), other) == IsFavorite(favorites, other)
  {
    var rest := WithoutFavorite(favorites, favorites[k].id);
    if IsFavorite(favorites, other) {
      var i :| 0 <= i < |favorites| && favorites[i].recipeId == other;
      assert i != k;
      assert favorites[i] in rest;
      var m :| 0 <= m < |rest| && rest[m] == favorites[i];
      assert IsFavorite(rest, other);
    } else {
      forall f | f in rest ensures f.recipeId != other {
        var i :| 0 <= i < |favorites| && favorites[i] == f;
      }
      NoEntryNoFavorite(rest, other);
    }
  }
}
