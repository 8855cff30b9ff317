/**
 * The load task: a full refresh of `sales_aggregated` inside one
 * transaction. The table is cleared, every aggregate row is upserted by
 * product id, and the transaction is committed; if any statement fails the
 * transaction is rolled back and the error is passed on.
 */
module Load {
  import opened Wrappers
  import opened Transform

  /** The statement that raised. Statements of one load are numbered in the
      order they run: 0 is TRUNCATE, 1 to n are the upserts of the n rows,
      n + 1 is COMMIT. */
  datatype LoadError = StatementFailed(statement: nat)

  // ------------------------------------------------------------ the specification

  /** INSERT ... ON DUPLICATE KEY UPDATE: the row's product id ends up holding
      both of the row's measures, whether or not it was there before. */
  function UpsertRow(t: map<int, Totals>, row: AggregatedSale): map<int, Totals> {
    t[row.productId := Totals(row.totalQuantity, row.totalSaleAmount)]
  }

  /** The rows upserted one after the other, first row first. */
  function UpsertAll(t: map<int, Totals>, rows: seq<AggregatedSale>): (r: map<int, Totals>)
    ensures forall p :: p in r <==> p in t || exists i :: 0 <= i < |rows| && rows[i].productId == p
    decreases |rows|
  {
    if rows == [] then t else UpsertRow(UpsertAll(t, rows[..|rows| - 1]), rows[|rows| - 1])
  }

  /** Whether one of the n + 2 statements of a load of n rows fails, given
      the number of the failing statement, if any. */
  predicate FailsWithin(n: nat, failAt: Option<nat>) {
    failAt.Some? && failAt.value <= n + 1
  }

  /** The committed table after a load, as the transaction is meant to work:
      everything or nothing. */
  function LoadedTable(before: map<int, Totals>, rows: seq<AggregatedSale>, failAt: Option<nat>): map<int, Totals> {
    if FailsWithin(|rows|, failAt) then before else UpsertAll(map[], rows)
  }

  /** The committed table after a load on MySQL, where TRUNCATE TABLE commits
      on its own: a failure after the truncate leaves the table empty. */
  function LoadedTableAsWritten(before: map<int, Totals>, rows: seq<AggregatedSale>, failAt: Option<nat>): map<int, Totals> {
    if failAt == Some(0) then before
    else if FailsWithin(|rows|, failAt) then map[]
    else UpsertAll(map[], rows)
  }

  // ------------------------------------------------------------ the warehouse

  /** One connection to the warehouse, with autocommit off: the first
      statement opens a transaction, commit or rollback ends it. */
  class Warehouse {
    /** `sales_aggregated` as this connection sees it, its own uncommitted
        changes included. */
    var table: map<int, Totals>
    /** While a transaction is open, the table as last committed. */
    var snapshot: Option<map<int, Totals>>

    /** The table as every other connection sees it. */
    function Committed(): map<int, Totals>
      reads this
    {
      if snapshot.Some? then snapshot.value else table
    }

    constructor (committed: map<int, Totals>)
      ensures table == committed && snapshot == None
    {
      table := committed;
      snapshot := None;
    }

    /** TRUNCATE TABLE treated as a transactional statement. */
    method Truncate()
      modifies this
      ensures table == map[]
      ensures snapshot == Some(old(Committed()))
    {
      if snapshot.None? {
        snapshot := Some(table);
      }
      table := map[];
    }

    /** TRUNCATE TABLE as MySQL runs it: it commits the open transaction,
        empties the table, and commits again, so the empty table is what
        a later rollback goes back to. */
    method TruncateImplicitCommit()
      modifies this
      ensures table == map[]
      ensures snapshot == Some(map[])
    {
      table := map[];
      snapshot := Some(table);
    }

    method Upsert(row: AggregatedSale)
      modifies this
      ensures table == UpsertRow(old(table), row)
      ensures snapshot == Some(old(Committed()))
    {
      if snapshot.None? {
        snapshot := Some(table);
      }
      table := UpsertRow(table, row);
    }

    method Commit()
      modifies this
      ensures table == old(table)
      ensures snapshot == None
    {
      snapshot := None;
    }

    /** Puts back the table as last committed and ends the transaction. */
    method Rollback()
      modifies this
      ensures table == old(Committed())
      ensures snapshot == None
    {
      if snapshot.Some? {
        table := snapshot.value;
      }
      snapshot := None;
    }

    /** The upsert loop: the rows are upserted in order until the statement
        numbered failAt, if it is one of them, fails. The result is the
        number of the failed statement. */
    method UpsertRows(rows: seq<AggregatedSale>, failAt: Option<nat>) returns (failed: Option<nat>)
      requires snapshot.Some?
      modifies this
      ensures failed.Some? <==> failAt.Some? && 1 <= failAt.value <= |rows|
      ensures failed.Some? ==> failed == failAt
      ensures failed.None? ==> table == UpsertAll(old(table), rows)
      ensures failed.Some? ==> table == UpsertAll(old(table), rows[..failed.value - 1])
      ensures snapshot == old(snapshot)
    {
      var i := 0;
      while i < |rows|
        invariant 0 <= i <= |rows|
        invariant table == UpsertAll(old(table), rows[..i])
        invariant snapshot == old(snapshot)
        invariant failAt.Some? && 1 <= failAt.value ==> i < failAt.value
      {
        if failAt == Some(i + 1) {
          return Some(i + 1);
        }
        Upsert(rows[i]);
        assert rows[..i + 1][..i] == rows[..i];
        i := i + 1;
      }
      assert rows[..i] == rows;
      return None;
    }

    /** `load_to_mysql` with the rollback restoring the table as it was
        before the load. */
    method LoadToMysql(rows: seq<AggregatedSale>, failAt: Option<nat>) returns (r: Result<nat, LoadError>)
      requires snapshot.None?
      modifies this
      ensures r.Failure? <==> FailsWithin(|rows|, failAt)
      ensures r.Failure? ==> r.error == StatementFailed(failAt.value)
      ensures r.Success? ==> r.value == |rows|
      ensures table == LoadedTable(old(table), rows, failAt)
      ensures snapshot == None
    {
      if failAt == Some(0) {
        Rollback();
        return Failure(StatementFailed(0));
      }
      Truncate();
      var failed := UpsertRows(rows, failAt);
      if failed.Some? {
        Rollback();
        return Failure(StatementFailed(failed.value));
      }
      if failAt == Some(|rows| + 1) {
        Rollback();
        return Failure(StatementFailed(|rows| + 1));
      }
      Commit();
      return Success(|rows|);
    }

    /** `load_to_mysql` as it runs on MySQL: the rollback cannot undo the
        truncate. */
    method LoadToMysqlAsWritten(rows: seq<AggregatedSale>, failAt: Option<nat>) returns (r: Result<nat, LoadError>)
      requires snapshot.None?
      modifies this
      ensures r.Failure? <==> FailsWithin(|rows|, failAt)
      ensures r.Failure? ==> r.error == StatementFailed(failAt.value)
      ensures r.Success? ==> r.value == |rows|
      ensures table == LoadedTableAsWritten(old(table), rows, failAt)
      ensures snapshot == None
    {
      if failAt == Some(0) {
        Rollback();
        return Failure(StatementFailed(0));
      }
      TruncateImplicitCommit();
      var failed := UpsertRows(rows, failAt);
      if failed.Some? {
        Rollback();
        return Failure(StatementFailed(failed.value));
      }
      if failAt == Some(|rows| + 1) {
        Rollback();
        return Failure(StatementFailed(|rows| + 1));
      }
      Commit();
      return Success(|rows|);
    }
  }

  // ------------------------------------------------------------ properties

  /** Last write wins: a product id holds the measures of the last row
      upserted for it. */
  lemma {:induction false} UpsertAllLastWriteWins(t: map<int, Totals>, rows: seq<AggregatedSale>, i: nat)
    requires i < |rows|
    requires forall j :: i < j < |rows| ==> rows[j].productId != rows[i].productId
    ensures rows[i].productId in UpsertAll(t, rows)
    ensures UpsertAll(t, rows)[rows[i].productId] == Totals(rows[i].totalQuantity, rows[i].totalSaleAmount)
  {
    if i < |rows| - 1 {
      var front := rows[..|rows| - 1];
      assert front[i] == rows[i];
      UpsertAllLastWriteWins(t, front, i);
    }
  }

  /** A product id that no row mentions keeps what it held. */
  lemma {:induction false} UpsertAllKeepsOthers(t: map<int, Totals>, rows: seq<AggregatedSale>, p: int)
    requires forall j :: 0 <= j < |rows| ==> rows[j].productId != p
    ensures p in UpsertAll(t, rows) <==> p in t
    ensures p in t ==> UpsertAll(t, rows)[p] == t[p]
  {
    if rows != [] {
      UpsertAllKeepsOthers(t, rows[..|rows| - 1], p);
    }
  }

  /** The rows of a listing without its last row list the table without
      that row's product. */
  lemma ListsFront(rows: seq<AggregatedSale>, agg: map<int, Totals>)
    requires Lists(rows, agg) && rows != []
    ensures Lists(rows[..|rows| - 1], agg - {rows[|rows| - 1].productId})
  {
    var front, last := rows[..|rows| - 1], rows[|rows| - 1];
    var rest := agg - {last.productId};
    forall p | p in rest
      ensures exists i :: 0 <= i < |front| && front[i].productId == p
    {
      var i :| 0 <= i < |rows| && rows[i].productId == p;
      assert i < |front| && front[i] == rows[i];
    }
  }

  /** Upserting the rows of a listing into any table gives that table
      overridden by the listed one. */
  lemma {:induction false} UpsertAllIsUnion(t: map<int, Totals>, rows: seq<AggregatedSale>, agg: map<int, Totals>)
    requires Lists(rows, agg)
    ensures UpsertAll(t, rows) == t + agg
  {
    if rows == [] {
      if agg.Keys != {} {
        HasElement(agg.Keys);
        assert false;
      }
      assert t + agg == t;
    } else {
      var last := rows[|rows| - 1];
      var rest := agg - {last.productId};
      ListsFront(rows, agg);
      UpsertAllIsUnion(t, rows[..|rows| - 1], rest);
      assert (t + rest)[last.productId := Totals(last.totalQuantity, last.totalSaleAmount)] == t + agg;
    }
  }

  /** After the truncate, the upserts of a listing leave exactly the listed
      table: its keys and both measures of each. */
  lemma LoadedRowsAreAggregate(rows: seq<AggregatedSale>, agg: map<int, Totals>)
    requires Lists(rows, agg)
    ensures UpsertAll(map[], rows) == agg
  {
    UpsertAllIsUnion(map[], rows, agg);
    assert map[] + agg == agg;
  }

  /** Everything or nothing: a load of a listing leaves either the listed
      table or, when a statement failed, the table as it was. */
  lemma LoadLeavesAggregateOrPriorTable(before: map<int, Totals>, rows: seq<AggregatedSale>, agg: map<int, Totals>, failAt: Option<nat>)
    requires Lists(rows, agg)
    ensures LoadedTable(before, rows, failAt) == (if FailsWithin(|rows|, failAt) then before else agg)
  {
    LoadedRowsAreAggregate(rows, agg);
  }

  /** A load retried after a failed one leaves what one successful load
      would; so does loading the same aggregate twice. */
  lemma RetryAfterFailure(before: map<int, Totals>, rows: seq<AggregatedSale>, agg: map<int, Totals>, failAt: Option<nat>)
    requires Lists(rows, agg)
    ensures LoadedTable(LoadedTable(before, rows, failAt), rows, None) == agg
    ensures LoadedTableAsWritten(LoadedTableAsWritten(before, rows, failAt), rows, None) == agg
  {
    LoadedRowsAreAggregate(rows, agg);
  }

  /** Without the truncate the upserts alone would leave rows of products
      that are no longer sold; on a table that already holds the aggregate
      they change nothing. */
  lemma UpsertWithoutTruncate(t: map<int, Totals>, rows: seq<AggregatedSale>, agg: map<int, Totals>, p: int)
    requires Lists(rows, agg)
    ensures p in t && p !in agg ==> p in UpsertAll(t, rows)
    ensures UpsertAll(agg, rows) == agg
  {
    UpsertAllIsUnion(t, rows, agg);
    UpsertAllIsUnion(agg, rows, agg);
    assert agg + agg == agg;
  }

  /** The TRUNCATE commit: when a statement after the truncate fails, the
      load empties a table that held rows, where the rollback was meant to
      keep them. */
  lemma TruncateCommitLosesTable(before: map<int, Totals>, rows: seq<AggregatedSale>, k: nat)
    requires before != map[] && 1 <= k <= |rows| + 1
    ensures LoadedTableAsWritten(before, rows, Some(k)) == map[]
    ensures LoadedTable(before, rows, Some(k)) == before
  {
  }
}
