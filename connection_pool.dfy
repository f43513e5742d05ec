/**
 * The pooled MySQL connection as the aggregate writer uses it: only how often a
 * connection is checked out and handed back is modelled, not queueing at the limit.
 */
module ConnectionPool {

  class Pool {
    var acquired: nat
    var released: nat

    ghost predicate Valid()
      reads this
    {
      released <= acquired
    }

    constructor ()
      ensures Valid() && acquired == 0 && released == 0
    {
      acquired, released := 0, 0;
    }

    /** `pool.getConnection()`. */
    method GetConnection()
      requires Valid()
      modifies this
      ensures Valid() && acquired == old(acquired) + 1 && released == old(released)
    {
      acquired := acquired + 1;
    }

    /** `connection.release()`: only a connection that is checked out can be handed back. */
    method Release()
      requires Valid() && released < acquired
      modifies this
      ensures Valid() && released == old(released) + 1 && acquired == old(acquired)
    {
      released := released + 1;
    }
  }
}
