/**
 * The HTTP handlers of backend/routes/favorites.js, as functions from the parsed request and
 * the controller operation to a status and a body. Path and body ids arrive through
 * JavaScript's numeric coercion, modelled as `Numeric`.
 */
module FavoriteRoutes {
  import opened Wrappers
  import opened Records
  import opened ServerValidation
  import opened FavoriteModel

  /** The JSON bodies the favorites handlers send. */
  datatype Body =
    | Message(message: string)
    | FavoriteList(favorites: seq<Favorite>)
    | FavoriteFlag(isFavorite: bool)
    | NewFavorite(favorite: int, recipeId: int)
    | DeletedCount(deleted: nat)

  datatype Response = Response(status: int, body: Body)

  /** A lookup the controller may or may not export; calling a missing one throws a TypeError. */
  type Lookup = Option<int -> Result<bool, DbError>>

  /** The favorites controller exports getFavorites, addFavorite and removeFavorite, and no isFavorite. */
  const ExportedIsFavorite: Lookup := None

  /** GET /favorites: 200 with `{favorites}`, or 500. */
  function GetFavorites(outcome: Result<seq<Favorite>, DbError>): (r: Response)
    ensures r.status == 200 <==> outcome.Success?
    ensures outcome.Success? ==> r.body == FavoriteList(outcome.value)
    ensures outcome.Failure? ==> r == Response(500, Message("Failed to get favorites"))
  {
    match outcome
    case Success(favorites) => Response(200, FavoriteList(favorites))
    case Failure(_) => Response(500, Message("Failed to get favorites"))
  }

  /**
   * GET /favorites/:recipeId: 400 for an id that is not a number of at least 1; otherwise the
   * controller's `isFavorite` is called, and any throw, a missing member included, becomes 500.
   */
  function CheckFavorite(recipeId: Numeric, isFavorite: Lookup): (r: Response)
    ensures r.status == 400 <==> !IsValidNumber(recipeId)
    ensures !IsValidNumber(recipeId) ==> r.body == Message("Invalid recipe ID")
    ensures IsValidNumber(recipeId) ==>
      (r.status == 200 <==> isFavorite.Some? && isFavorite.value(recipeId.value).Success?)
    ensures r.status == 200 ==> r.body == FavoriteFlag(isFavorite.value(recipeId.value).value)
    ensures r.status != 200 && r.status != 400 ==> r == Response(500, Message("Failed to check favorite"))
  {
    if !IsValidNumber(recipeId) then
      Response(400, Message("Invalid recipe ID"))
    else
      match isFavorite
      case None => Response(500, Message("Failed to check favorite"))
      case Some(lookup) =>
        match lookup(recipeId.value)
        case Success(favorite) => Response(200, FavoriteFlag(favorite))
        case Failure(_) => Response(500, Message("Failed to check favorite"))
  }

  /**
   * POST /favorites: 400 for an invalid recipe id; 201 with the new favorite id and the recipe
   * id; 409 exactly for a duplicate-entry error; 500 for every other error.
   */
  function PostFavorite(recipeId: Numeric, add: int -> Result<int, DbError>): (r: Response)
    ensures r.status == 400 <==> !IsValidNumber(recipeId)
    ensures !IsValidNumber(recipeId) ==> r.body == Message("Invalid recipe ID")
    ensures r.status == 201 <==> IsValidNumber(recipeId) && add(recipeId.value).Success?
    ensures r.status == 201 ==> r.body == NewFavorite(add(recipeId.value).value, recipeId.value)
    ensures r.status == 409 <==>
      IsValidNumber(recipeId) && add(recipeId.value).Failure? && add(recipeId.value).error.code == DupEntry
    ensures r.status == 409 ==> r.body == Message("Recipe already in favorites")
    ensures r.status == 500 <==>
      IsValidNumber(recipeId) && add(recipeId.value).Failure? && add(recipeId.value).error.code != DupEntry
    ensures r.status == 500 ==> r.body == Message("Failed to add favorite")
  {
    if !IsValidNumber(recipeId) then
      Response(400, Message("Invalid recipe ID"))
    else
      match add(recipeId.value)
      case Success(id) => Response(201, NewFavorite(id, recipeId.value))
      case Failure(error) =>
        if error.code == DupEntry then Response(409, Message("Recipe already in favorites"))
        else Response(500, Message("Failed to add favorite"))
  }

  /** DELETE /favorites/:id: 400 for an invalid favorite id; 200 with the affected-row count; or 500. */
  function DeleteFavorite(favoriteId: Numeric, remove: int -> Result<nat, DbError>): (r: Response)
    ensures r.status == 400 <==> !IsValidNumber(favoriteId)
    ensures !IsValidNumber(favoriteId) ==> r.body == Message("Invalid favorite ID")
    ensures r.status == 200 <==> IsValidNumber(favoriteId) && remove(favoriteId.value).Success?
    ensures r.status == 200 ==> r.body == DeletedCount(remove(favoriteId.value).value)
    ensures r.status != 200 && r.status != 400 ==> r == Response(500, Message("Failed to delete favorite"))
  {
    if !IsValidNumber(favoriteId) then
      Response(400, Message("Invalid favorite ID"))
    else
      match remove(favoriteId.value)
      case Success(affected) => Response(200, DeletedCount(affected))
      case Failure(_) => Response(500, Message("Failed to delete favorite"))
  }

  /** An id that fails `isValidNumber` is answered 400 by all three guarded routes, whatever the controller would do. */
  lemma InvalidIdNeverReachesController(id: Numeric, isFavorite: Lookup, isFavorite': Lookup,
                                        add: int -> Result<int, DbError>, add': int -> Result<int, DbError>,
                                        remove: int -> Result<nat, DbError>, remove': int -> Result<nat, DbError>)
    requires !IsValidNumber(id)
    ensures CheckFavorite(id, isFavorite) == CheckFavorite(id, isFavorite') == Response(400, Message("Invalid recipe ID"))
    ensures PostFavorite(id, add) == PostFavorite(id, add') == Response(400, Message("Invalid recipe ID"))
    ensures DeleteFavorite(id, remove) == DeleteFavorite(id, remove') == Response(400, Message("Invalid favorite ID"))
  {
  }

  /** POST answers with one of four statuses and no other. */
  lemma PostFavoriteStatuses(recipeId: Numeric, add: int -> Result<int, DbError>)
    ensures PostFavorite(recipeId, add).status in {400, 201, 409, 500}
  {
  }

  /**
   * As written, the check route cannot succeed: every valid id reaches the missing
   * `isFavorite` and ends in 500, and every other id in 400.
   */
  lemma CheckFavoriteNeverAnswers(recipeId: Numeric)
    ensures CheckFavorite(recipeId, ExportedIsFavorite).status != 200
    ensures IsValidNumber(recipeId) ==>
      CheckFavorite(recipeId, ExportedIsFavorite) == Response(500, Message("Failed to check favorite"))
  {
  }

  /** A witness: recipe 1 is a favorite, and the route still answers 500. */
  lemma CheckFavoriteFailsOnAFavorite()
    ensures IsFavorite([Favorite(1, 1)], 1)
    ensures CheckFavorite(Int(1), ExportedIsFavorite).status == 500
  {
    assert [Favorite(1, 1)][0].recipeId == 1;
  }

  /** The lookup the route means to call: membership of the recipe in the favorites table. */
  function FavoriteLookup(rows: seq<Favorite>): (lookup: Lookup)
    ensures lookup.Some?
    ensures forall id :: lookup.value(id) == Success(IsFavorite(rows, id))
  {
    Some(id => Success(IsFavorite(rows, id)))
  }

  /** With that lookup exported, a valid id is answered 200 with whether the recipe is a favorite. */
  lemma CheckFavoriteWithLookup(rows: seq<Favorite>, recipeId: Numeric)
    requires IsValidNumber(recipeId)
    ensures CheckFavorite(recipeId, FavoriteLookup(rows)).status == 200
    ensures CheckFavorite(recipeId, FavoriteLookup(rows)).body.isFavorite
        <==> exists i | 0 <= i < |rows| :: rows[i].recipeId == recipeId.value
  {
  }
}
