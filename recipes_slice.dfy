/** The client's recipes store (src/store/recipesSlice.js): the list and the refresh flag. */
module RecipesSlice {
  import opened Records

  class RecipesState {
    var items: seq<Recipe>
    /** Set after a write so that the list page refetches. */
    var needsRefresh: bool

    /** The initial state: no recipes and no refresh pending. */
    constructor ()
      ensures items == [] && !needsRefresh
    {
      items := [];
      needsRefresh := false;
    }

    /** setRecipes: the list becomes the payload and any pending refresh is considered done. */
    method SetRecipes(payload: seq<Recipe>)
      modifies this
      ensures items == payload && !needsRefresh
    {
      items := payload;
      needsRefresh := false;
    }

    /** setNeedsRefresh: only the flag changes. */
    method SetNeedsRefresh(flag: bool)
      modifies this
      ensures needsRefresh == flag && items == old(items)
    {
      needsRefresh := flag;
    }
  }
}
