/** The client's favorites store (src/store/favoriteSlice.js): one list field updated by three reducers. */
module FavoriteSlice {
  import opened Records
  import opened FavoriteModel

  class FavoritesState {
    /** The favorite entries as last fetched from the server, or as updated locally since. */
    var items: seq<Favorite>

    /** The initial state: no favorites. */
    constructor ()
      ensures items == []
    {
      items := [];
    }

    /** replaceFavorites: the list becomes exactly the payload. */
    method ReplaceFavorites(payload: seq<Favorite>)
      modifies this
      ensures items == payload
    {
      items := payload;
    }

    /** addFavorite: the payload is pushed at the end, without checking for a duplicate. */
    method AddFavorite(item: Favorite)
      modifies this
      ensures items == old(items) + [item]
      ensures |items| == |old(items)| + 1 && items[..|old(items)|] == old(items) && items[|old(items)|] == item
    {
      items := items + [item];
    }

    /** removeFavorite: every entry with that favorite id is filtered out; the others keep their order. */
    method RemoveFavorite(id: int)
      modifies this
      ensures items == WithoutFavorite(old(items), id)
      ensures forall f | f in items :: f.id != id
    {
      items := WithoutFavorite(items, id);
    }
  }

  /**
   * Adding an entry and then removing its id leaves the list without that id and otherwise
   * as before: the add does not deduplicate, so every copy of the id goes.
   */
  lemma AddThenRemove(items: seq<Favorite>, item: Favorite)
    ensures WithoutFavorite(items + [item], item.id) == WithoutFavorite(items, item.id)
  {
    RemoveKeepsOrder(items, [item], item.id);
    assert WithoutFavorite([item], item.id) == [];
  }

  /** Adding an entry that is already there leaves two copies of it. */
  lemma AddDoesNotDeduplicate(items: seq<Favorite>, item: Favorite)
    requires item in items
    ensures multiset(items + [item])[item] == multiset(items)[item] + 1
  {
  }
}
