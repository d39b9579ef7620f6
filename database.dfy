/**
 * The table `meas_values` as the pipeline sees it: the duplicate query of
 * `check_if_exists` and the appends of `upload_dfs`.
 */
module Database {
  import opened Domain

  /** `SELECT COUNT(*) FROM meas_values WHERE filename = f`. */
  function CountRows(rows: seq<Record>, f: string): (n: nat)
    ensures n <= |rows|
    decreases |rows|
  {
    if rows == [] then 0
    else (if rows[0].filename == f then 1 else 0) + CountRows(rows[1..], f)
  }

  /** The count is zero exactly when no row carries filename `f`. */
  lemma {:induction false} CountZeroIff(rows: seq<Record>, f: string)
    ensures CountRows(rows, f) == 0 <==> forall r :: r in rows ==> r.filename != f
    decreases |rows|
  {
    if rows != [] {
      CountZeroIff(rows[1..], f);
      assert rows == [rows[0]] + rows[1..];
    }
  }

  /**
   * `check_if_exists(f, conn)`, the connection given as the table's rows: true
   * when the count is not zero, that is, when some row came from file `f`.
   */
  function CheckIfExists(conn: seq<Record>, f: string): (found: bool)
    ensures found <==> exists r :: r in conn && r.filename == f
  {
    CountZeroIff(conn, f);
    CountRows(conn, f) != 0
  }

  /** Counting over two blocks of rows adds up. */
  lemma {:induction false} CountAppend(a: seq<Record>, b: seq<Record>, f: string)
    ensures CountRows(a + b, f) == CountRows(a, f) + CountRows(b, f)
    decreases |a|
  {
    if a != [] {
      CountAppend(a[1..], b, f);
      assert (a + b)[0] == a[0] && (a + b)[1..] == a[1..] + b;
    } else {
      assert a + b == b;
    }
  }

  /** The rows of several record sets, one set after the other. */
  function Flatten(dfs: seq<seq<Record>>): seq<Record>
    decreases |dfs|
  {
    if dfs == [] then [] else dfs[0] + Flatten(dfs[1..])
  }

  /** Flattening distributes over concatenation. */
  lemma {:induction false} FlattenAppend(a: seq<seq<Record>>, b: seq<seq<Record>>)
    ensures Flatten(a + b) == Flatten(a) + Flatten(b)
    decreases |a|
  {
    if a != [] {
      FlattenAppend(a[1..], b);
      assert (a + b)[0] == a[0] && (a + b)[1..] == a[1..] + b;
    } else {
      assert a + b == b;
    }
  }

  /** The database, reached through the SQLAlchemy engine. */
  class Store {
    var rows: seq<Record>

    constructor (initial: seq<Record>)
      ensures rows == initial
    {
      rows := initial;
    }

    /**
     * `upload_dfs`: `df.to_sql("meas_values", engine, if_exists="append")` for
     * each record set in list order; existing rows are never changed.
     */
    method UploadDfs(dfs: seq<seq<Record>>)
      modifies this
      ensures rows == old(rows) + Flatten(dfs)
    {
      var i := 0;
      while i < |dfs|
        invariant 0 <= i <= |dfs|
        invariant rows == old(rows) + Flatten(dfs[..i])
      {
        FlattenAppend(dfs[..i], [dfs[i]]);
        assert dfs[..i + 1] == dfs[..i] + [dfs[i]];
        assert Flatten([dfs[i]]) == dfs[i] + Flatten([]);
        rows := rows + dfs[i];
        i := i + 1;
      }
      assert dfs[..i] == dfs;
    }
  }
}
