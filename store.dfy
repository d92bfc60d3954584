/** The `received_data` table: four text columns, `id` declared UNIQUE. The
    SQLite engine is reduced to the rows it holds and the errors it reports. */
module Store {
  import opened Wrappers

  /** One row, in the table's column order: id, origin, mime_data, datetime. */
  datatype Record = Record(id: string, origin: string, mimeData: string, datetime: string)

  /** An error the driver hands to a statement callback: its numeric code and
      its message text. */
  datatype DbError = DbError(errno: int, message: string)

  /** SQLite's result code for a violated constraint. */
  const SqliteConstraint := 19

  /** The message of the error the driver reports when an insert repeats an
      existing `id`: the result code's name, SQLite's description of the
      failed constraint, and the column. */
  const DuplicateIdMessage := "SQLITE_CONSTRAINT: " + "UNIQUE constraint failed" + ": received_data.id"

  /** The error the driver reports when an insert repeats an existing `id`. */
  const DuplicateIdError := DbError(SqliteConstraint, DuplicateIdMessage)

  /** Some row carries `id`. */
  predicate HasId(rows: seq<Record>, id: string) {
    exists i :: 0 <= i < |rows| && rows[i].id == id
  }

  /** No two rows share an `id`: the UNIQUE constraint of the `id` column. */
  predicate UniqueIds(rows: seq<Record>) {
    forall i, j :: 0 <= i < j < |rows| ==> rows[i].id != rows[j].id
  }

  /** The rows that carry `id`, in table order. */
  function RowsWithId(rows: seq<Record>, id: string): (r: seq<Record>)
    ensures |r| <= |rows|
    ensures forall x :: x in r <==> x in rows && x.id == id
  {
    if rows == [] then []
    else (if rows[0].id == id then [rows[0]] else []) + RowsWithId(rows[1..], id)
  }

  /** Under the UNIQUE constraint an id names at most one row, and a present id
      names exactly one. */
  lemma {:induction false} UniqueIdNamesOneRow(rows: seq<Record>, id: string)
    requires UniqueIds(rows)
    ensures |RowsWithId(rows, id)| == if HasId(rows, id) then 1 else 0
  {
    if rows != [] {
      var rest := rows[1..];
      assert UniqueIds(rest) by {
        forall i, j | 0 <= i < j < |rest| ensures rest[i].id != rest[j].id {
          assert rest[i] == rows[i + 1] && rest[j] == rows[j + 1];
        }
      }
      UniqueIdNamesOneRow(rest, id);
      if rows[0].id == id {
        assert !HasId(rest, id) by {
          forall i | 0 <= i < |rest| ensures rest[i].id != id {
            assert rest[i] == rows[i + 1];
          }
        }
      } else {
        assert HasId(rows, id) <==> HasId(rest, id) by {
          if HasId(rows, id) {
            var i :| 0 <= i < |rows| && rows[i].id == id;
            assert rest[i - 1] == rows[i];
          }
          if HasId(rest, id) {
            var i :| 0 <= i < |rest| && rest[i].id == id;
            assert rows[i + 1] == rest[i];
          }
        }
      }
    }
  }

  /** Appending a row whose id is new keeps the ids unique. */
  lemma AppendFreshKeepsUnique(rows: seq<Record>, rec: Record)
    requires UniqueIds(rows) && !HasId(rows, rec.id)
    ensures UniqueIds(rows + [rec])
  {
    var s := rows + [rec];
    forall i, j | 0 <= i < j < |s| ensures s[i].id != s[j].id {
      if j == |rows| {
        assert s[i] == rows[i];
      }
    }
  }

  /** The table, held by the shared database handle; rows are kept in the
      order they were inserted. */
  class Table {
    var rows: seq<Record>

    /** The UNIQUE constraint holds. */
    ghost predicate Valid()
      reads this
    {
      UniqueIds(rows)
    }

    /** `CREATE TABLE IF NOT EXISTS` on a fresh database file: an empty table. */
    constructor ()
      ensures Valid() && rows == []
    {
      rows := [];
    }

    /** The parameterised insert of one row with its four columns.
        `fault` is a failure of the engine itself (disk, corruption) that the
        model takes as given; it is never a constraint violation, since the
        schema's one constraint is decided by the rows; without one, the UNIQUE constraint decides. */
    method Insert(rec: Record, fault: Option<DbError>) returns (err: Option<DbError>)
      requires Valid()
      requires fault.Some? ==> fault.value.errno != SqliteConstraint
      modifies this
      ensures Valid()
      ensures fault.Some? ==> err == fault && rows == old(rows)
      ensures fault.None? && HasId(old(rows), rec.id) ==> err == Some(DuplicateIdError) && rows == old(rows)
      ensures fault.None? && !HasId(old(rows), rec.id) ==> err == None && rows == old(rows) + [rec]
    {
      if fault.Some? {
        err := fault;
      } else if HasId(rows, rec.id) {
        err := Some(DuplicateIdError);
      } else {
        AppendFreshKeepsUnique(rows, rec);
        rows := rows + [rec];
        err := None;
      }
    }
  }
}
