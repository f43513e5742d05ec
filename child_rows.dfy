/** What the ingredient and step tables have in common: rows owned by a recipe through `recipe_id`. */
module ChildRows {
  import opened Records
  import opened Table

  /**
   * The rows a loop of inserts adds for `recipeId`: item `i` becomes a row with the
   * auto-increment id `firstId + i`, in payload order.
   */
  function NewChildren<P>(firstId: int, recipeId: int, items: seq<P>): (r: seq<Child<P>>)
    ensures |r| == |items|
    ensures forall i | 0 <= i < |items| :: r[i] == Child(firstId + i, recipeId, items[i])
  {
    if items == [] then []
    else
      var n := |items| - 1;
      NewChildren(firstId, recipeId, items[..n]) + [Child(firstId + n, recipeId, items[n])]
  }

  /** The payload columns of some child rows. */
  function Payloads<P>(rows: seq<Child<P>>): (r: seq<P>)
    ensures |r| == |rows|
    ensures forall i | 0 <= i < |rows| :: r[i] == rows[i].data
  {
    if rows == [] then [] else [rows[0].data] + Payloads(rows[1..])
  }

  /** Reading back rows just inserted for `recipeId` yields exactly the payloads, in order; another recipe sees none of them. */
  lemma ReadBackNewChildren<P>(firstId: int, recipeId: int, items: seq<P>, other: int)
    ensures Payloads(Where(NewChildren(firstId, recipeId, items), ParentKey, other))
         == if other == recipeId then items else []
  {
    var added := NewChildren(firstId, recipeId, items);
    if other == recipeId {
      AllMatch(added, ParentKey, other);
    } else {
      NoMatches(added, ParentKey, other);
    }
  }

  /**
   * Reading a recipe's children after a loop of inserts for it: whatever rows already
   * named it, followed by exactly the inserted payloads in order.
   */
  lemma InsertReadBack<P>(rows: seq<Child<P>>, firstId: int, recipeId: int, items: seq<P>)
    ensures Payloads(Where(rows + NewChildren(firstId, recipeId, items), ParentKey, recipeId))
         == Payloads(Where(rows, ParentKey, recipeId)) + items
  {
    var added := NewChildren(firstId, recipeId, items);
    WhereConcat(rows, added, ParentKey, recipeId);
    ReadBackNewChildren(firstId, recipeId, items, recipeId);
    PayloadsConcat(Where(rows, ParentKey, recipeId), Where(added, ParentKey, recipeId));
  }

  /** A loop of inserts for `recipeId` leaves every other recipe's children exactly as they were. */
  lemma InsertLeavesOthers<P>(rows: seq<Child<P>>, firstId: int, recipeId: int, items: seq<P>, other: int)
    requires other != recipeId
    ensures Where(rows + NewChildren(firstId, recipeId, items), ParentKey, other) == Where(rows, ParentKey, other)
  {
    var added := NewChildren(firstId, recipeId, items);
    WhereConcat(rows, added, ParentKey, other);
    forall x | x in added ensures ParentKey(x) != other {
      var i :| 0 <= i < |added| && added[i] == x;
    }
    NoMatches(added, ParentKey, other);
  }

  /** Inserting a row for `recipeId` adds it at the end of that recipe's children and leaves every other recipe's children alone. */
  lemma AppendChild<P>(rows: seq<Child<P>>, row: Child<P>, other: int)
    ensures Where(rows + [row], ParentKey, other)
         == Where(rows, ParentKey, other) + (if row.recipeId == other then [row] else [])
  {
    WhereConcat(rows, [row], ParentKey, other);
  }

  /**
   * After a delete-all for `recipeId` followed by inserting new rows for it (a full
   * replacement), the recipe's children are exactly the new rows, carrying the new payloads
   * in order, and every other recipe's children are the very rows they were.
   */
  lemma ReplaceChildren<P>(rows: seq<Child<P>>, firstId: int, recipeId: int, items: seq<P>, other: int)
    ensures Where(WhereNot(rows, ParentKey, recipeId) + NewChildren(firstId, recipeId, items), ParentKey, recipeId)
         == NewChildren(firstId, recipeId, items)
    ensures Payloads(Where(WhereNot(rows, ParentKey, recipeId) + NewChildren(firstId, recipeId, items), ParentKey, recipeId))
         == items
    ensures other != recipeId ==>
      Where(WhereNot(rows, ParentKey, recipeId) + NewChildren(firstId, recipeId, items), ParentKey, other)
        == Where(rows, ParentKey, other)
  {
    var kept := WhereNot(rows, ParentKey, recipeId);
    var added := NewChildren(firstId, recipeId, items);
    WhereConcat(kept, added, ParentKey, recipeId);
    WhereAfterDelete(rows, ParentKey, recipeId, recipeId);
    ReadBackNewChildren(firstId, recipeId, items, recipeId);
    forall x | x in added ensures ParentKey(x) == recipeId {
      var i :| 0 <= i < |added| && added[i] == x;
    }
    AllMatch(added, ParentKey, recipeId);
    assert [] + added == added;
    if other != recipeId {
      InsertLeavesOthers(kept, firstId, recipeId, items, other);
      WhereAfterDelete(rows, ParentKey, recipeId, other);
    }
  }

  lemma {:induction false} PayloadsConcat<P>(a: seq<Child<P>>, b: seq<Child<P>>)
    ensures Payloads(a + b) == Payloads(a) + Payloads(b)
  {
  }
}
