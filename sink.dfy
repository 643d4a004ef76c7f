/**
 * The row sink every classifier writes to. In the system it is a database
 * transaction reached through a `Logger`; forking the logger gives another
 * handle on the same transaction, so all visitors of one file share one Log.
 */
module Sink {

  class Log<R> {
    /** The rows inserted so far, in insertion order. */
    var rows: seq<R>

    constructor ()
      ensures rows == []
    {
      rows := [];
    }

    /** Appends one row (an INSERT). */
    method Push(r: R)
      modifies this
      ensures rows == old(rows) + [r]
    {
      rows := rows + [r];
    }
  }
}
