/** The history store: an insert-only sink of History rows. */
module Mapper {
  import opened Domain

  class HistoryMapper {
    /** Every row the store has accepted, oldest first. */
    var rows: seq<History>
    /** Every row an insert was attempted for, accepted or not, oldest first. */
    ghost var attempts: seq<History>

    constructor ()
      ensures rows == [] && attempts == []
    {
      rows := [];
      attempts := [];
    }

    /**
     * Inserts one row. The database may refuse it (store unavailable, a
     * constraint violated); `ok` is false exactly when the insert threw,
     * and then no row was added.
     */
    method InsertHistory(h: History) returns (ok: bool)
      modifies this
      ensures rows == if ok then old(rows) + [h] else old(rows)
      ensures attempts == old(attempts) + [h]
    {
      attempts := attempts + [h];
      ok :| true;
      if ok {
        rows := rows + [h];
      }
    }
  }
}
