# Retail sales ETL: a verified model of the pipeline core

This project models the ETL pipeline of the retail sales DAG (`dags/retail_etl_dag.py`). The DAG has four tasks:

- Two tasks extract sales records: online sales and in-store sales.
- `transform_data` coerces the three required fields of every record to numbers, concatenates the two sets, and drops rows with a missing field. It then sums quantity and sale amount per product.
- `load_to_mysql` refreshes the warehouse table `sales_aggregated` inside a transaction. It truncates the table, upserts every aggregate row by product id, and then commits. On any error it rolls back and re-raises.

The four tasks are linked by the edges: both extracts, then transform, then load.

The model is written in Dafny, in six modules:

- `Coercion` (`coercion.dfy`): the numeric coercion of a cell, as a decimal-literal parser to exact hundredths. It also writes numbers back as text, with round-trip lemmas.
- `Transform` (`transform.dfy`): the transform task as functions. It covers per-field coercion, concatenation, `dropna`, `groupby(...).sum()` as a map from product id to totals, and the listing in ascending product id order, the order in which `groupby` sorts its keys. Lemmas cover the drop count, per-product sums, and what a dropped row contributes (nothing).
- `Load` (`load.dfy`): the warehouse connection as a class. Its fields are the table the connection sees and the last committed table while a transaction is open. Its statement methods are TRUNCATE, the upsert, COMMIT and ROLLBACK. The upsert loop is a method proved against the specification function `UpsertAll`. The load task exists twice: with the rollback restoring the table (`LoadToMysql`) and as it runs on MySQL (`LoadToMysqlAsWritten`).
- `Pipeline` (`pipeline.dfy`): one run end to end. The aggregate goes through the CSV artifact to the load, and the run publishes the per-product sums or, on failure, leaves the table alone.
- `Dag` (`dag.dfy`): the task graph as a state machine over task statuses. It includes the retry budget of one retry per task and the marking of tasks downstream of a failure.
- `AsWritten` (`as_written.dfy`): the coercion and load conversions as the DAG writes them, with the counterexample of the first finding. Every cell goes through the same numeric coercion as the amount, which is narrower than `pd.to_numeric` (see Left out), and the `float()` of the amount at line 223 is not modelled.

Numbers are exact. Amounts, and the as-written product ids and quantities, are integers counting hundredths: 19.99 is 1999. No floating point is used.

Failures are injected as a statement number `failAt`. In a load of n rows, statement 0 is the TRUNCATE, statements 1 to n are the upserts, and statement n + 1 is the COMMIT.

Where the design notes and the code differ:

- The design notes call the aggregate totals non-negative, but the code never filters negative quantities or amounts. The model follows the code and keeps them.
- The end-to-end model (`Transform`, `Load.Warehouse.LoadToMysql`, `Pipeline`) does not follow the code in the two places listed under Findings. It carries the corrected behaviour instead:
  - First finding: `Transform.Coerce` reads product ids and quantities as whole numbers (`Coercion.ToInteger`), so a row with id "1.50" is dropped. The code's `pd.to_numeric` at lines 132-133 keeps 1.5. The design notes make both columns integers.
  - Second finding: `Load.Warehouse.LoadToMysql` restores the prior table on rollback, as the design notes promise. On MySQL the code's TRUNCATE at line 205 commits on its own, so its rollback at line 233 leaves the table empty.
- The code as written is modelled beside the corrected model: `AsWritten` for the first finding, and `Load.Warehouse.LoadToMysqlAsWritten` with `Load.LoadedTableAsWritten` for the second.

## Model

| member | source | states |
|---|---|---|
| Coercion.ToNumeric | dags/retail_etl_dag.py:132-134 | an empty or not-a-number cell coerces to missing, never to a number |
| Coercion.ToInteger | dags/retail_etl_dag.py:132-133 | corrected behaviour (first finding; the code keeps fractions): a cell is a whole number exactly when it coerces to a number with no fractional part, and then it is that number |
| Coercion.WordIsMissing | dags/retail_etl_dag.py:132-134 | a cell with a letter or space in it coerces to missing instead of raising, under either coercion |
| Coercion.WholeNumeral | dags/retail_etl_dag.py:132-134 | a plain run of digits coerces to the whole number it denotes |
| Coercion.TwoPlaceNumeral | dags/retail_etl_dag.py:134 | digits, a point and two digits coerce to that amount in hundredths |
| Coercion.FormatCentsRoundTrip | dags/retail_etl_dag.py:158 | every amount written to the CSV artifact is read back as the same amount |
| Coercion.IntTextRoundTrip | dags/retail_etl_dag.py:158 | every whole number written to the CSV artifact is read back as the same whole number |
| Transform.CoercionIsPerField | dags/retail_etl_dag.py:130-134 | a non-numeral in one required field makes only that field missing; the row's other fields coerce as they would have anyway |
| Transform.Coerce | dags/retail_etl_dag.py:130-134 | corrected behaviour (first finding): a product id or quantity that coerces is a whole number whose numeric reading is that number; a row with an empty required cell is never complete |
| Transform.CoerceAll | dags/retail_etl_dag.py:130-134 | the coercion loop keeps the row count, and row i of the result is the coercion of row i |
| Transform.Combine | dags/retail_etl_dag.py:137 | the combined set has as many rows as both sources together |
| Transform.CombineKeepsEveryRow | dags/retail_etl_dag.py:137 | the combined set has the length of both sets, its first rows are the online rows and its last rows the in-store rows, in order, incomplete rows included |
| Transform.Clean | dags/retail_etl_dag.py:141-143 | the rows kept plus the incomplete rows count all rows of the combined set |
| Transform.CleanKeepsOnlyComplete | dags/retail_etl_dag.py:142 | every kept row is the normalization of a complete combined row |
| Transform.CleanKeepsEveryComplete | dags/retail_etl_dag.py:142 | every complete combined row is kept |
| Transform.CleanSingle | dags/retail_etl_dag.py:142 | a single row is kept, normalized, exactly when it is complete; with CleanAppend this fixes which rows are kept, how often and in what order |
| Transform.CleanAppend | dags/retail_etl_dag.py:142 | cleaning a concatenation cleans each part |
| Transform.DroppedRowContributesNothing | dags/retail_etl_dag.py:141-150 | an incomplete row anywhere in the combined set changes neither the cleaned rows nor the aggregate |
| Transform.IncompleteRowIsDropped | dags/retail_etl_dag.py:130-150 | an online row with any missing required field, wherever it stands, leaves the aggregate rows as if it were absent and raises the drop count by one |
| Transform.IncompleteInstoreRowIsDropped | dags/retail_etl_dag.py:130-150 | the same for a row of the in-store set |
| Transform.NonNumeralIdIsDropped | dags/retail_etl_dag.py:130-150 | in particular, an online row whose product id has a character no numeral has (say "abc") is dropped that way |
| Transform.FractionalNumeral | dags/retail_etl_dag.py:132 | a numeral "d.ff" with a non-zero fraction is a number but not a whole number |
| Transform.FractionalIdIsDropped | dags/retail_etl_dag.py:132 | a row whose product id has a fractional part has a missing product id and is not complete, so it is dropped |
| Transform.Aggregate | dags/retail_etl_dag.py:147-150 | the aggregate has exactly one entry per product id of the cleaned rows |
| Transform.AggregateTotals | dags/retail_etl_dag.py:147-150 | each product's entry is the sum of quantity and the sum of sale amount over the cleaned rows of that product |
| Transform.SumsAppend | dags/retail_etl_dag.py:147-150 | a product's sums over a concatenation are the sums over each part |
| Transform.SumsOfAbsentProduct | dags/retail_etl_dag.py:147-150 | a product with no cleaned row has zero sums |
| Transform.AggregateIgnoresOrder | dags/retail_etl_dag.py:137-150 | the aggregate of two concatenated row sets does not depend on their order |
| Transform.Listing | dags/retail_etl_dag.py:147-153 | the output has exactly one row per aggregate entry |
| Transform.ListingIsAscending | dags/retail_etl_dag.py:147-150 | the aggregate rows come out in ascending product id order, as grouping sorts its keys |
| Transform.ListingRowsAreEntries | dags/retail_etl_dag.py:150-153 | each output row carries an aggregate entry's product id and both of its totals |
| Transform.ListingCoversAggregate | dags/retail_etl_dag.py:150-153 | every aggregate entry appears as an output row |
| Transform.ListingListsAggregate | dags/retail_etl_dag.py:150-153 | the output rows list the aggregate: distinct ids, each an entry, every entry present, ascending |
| Transform.TransformData | dags/retail_etl_dag.py:112-160 | the drop count is the number of combined rows with a missing required field, and there are as many output rows as distinct product ids among the cleaned rows |
| Transform.TransformDataMeetsSpec | dags/retail_etl_dag.py:112-160 | the drop count is the number of incomplete combined rows; there is one ascending output row per cleaned product id and no other, carrying that product's sums |
| Transform.ExampleAggregate | dags/retail_etl_dag.py:147-150 | three cleaned rows for products 1, 2, 1 give product 1 the totals (5, 24.96) and product 2 the totals (1, 19.99) |
| Transform.TwoSourcesExample | dags/retail_etl_dag.py:112-160 | the transform of two online text rows and one in-store text row gives the two ascending output rows above and drops nothing |
| Load.Warehouse.constructor | dags/retail_etl_dag.py:187-189 | a fresh connection sees the committed table and has no open transaction |
| Load.Warehouse.Truncate | dags/retail_etl_dag.py:205 | the table becomes empty inside the transaction; the committed table is what it was |
| Load.Warehouse.TruncateImplicitCommit | dags/retail_etl_dag.py:205 | on MySQL the truncate commits: the table and the committed table both become empty |
| Load.Warehouse.Upsert | dags/retail_etl_dag.py:214-224 | the row's product id now holds both of the row's measures, other ids are untouched; a transaction is open |
| Load.Warehouse.Commit | dags/retail_etl_dag.py:227 | the table becomes the committed table and the transaction ends |
| Load.Warehouse.Rollback | dags/retail_etl_dag.py:233 | the table goes back to the last committed table and the transaction ends |
| Load.Warehouse.UpsertRows | dags/retail_etl_dag.py:213-224 | the loop upserts the rows in order; it stops exactly at the failing upsert, if any, with the rows before it upserted; the transaction state is unchanged |
| Load.Warehouse.LoadToMysql | dags/retail_etl_dag.py:170-241 | corrected behaviour (second finding; on MySQL the code loses the table): the load fails exactly when one of its statements fails, reporting that statement, and otherwise returns the row count; the table afterwards is the upserted rows on success and the prior table on failure; no transaction is left open |
| Load.Warehouse.LoadToMysqlAsWritten | dags/retail_etl_dag.py:170-241 | the same load with the truncate committing on its own: a failure after the truncate leaves the table empty |
| Load.UpsertAll | dags/retail_etl_dag.py:213-224 | after the upserts the table holds exactly the ids it held before and the ids of the rows |
| Load.UpsertAllLastWriteWins | dags/retail_etl_dag.py:213-224 | a product id holds the measures of the last row upserted for it |
| Load.UpsertAllKeepsOthers | dags/retail_etl_dag.py:213-224 | a product id no row mentions keeps whatever it held, or stays absent |
| Load.UpsertAllIsUnion | dags/retail_etl_dag.py:213-224 | upserting the rows of a listing into any table gives that table overridden by the listed one |
| Load.LoadedRowsAreAggregate | dags/retail_etl_dag.py:205-224 | after the truncate, the upserts of the transform's rows leave exactly the aggregate: its keys and both measures of each |
| Load.LoadLeavesAggregateOrPriorTable | dags/retail_etl_dag.py:191-234 | a load of a listing leaves either the listed table or, when any statement failed, the prior table |
| Load.RetryAfterFailure | dags/retail_etl_dag.py:205-234 | a load after a failed load leaves the aggregate, under either truncate semantics; so does loading the same aggregate twice |
| Load.UpsertWithoutTruncate | dags/retail_etl_dag.py:209-224 | without the truncate a stale product would survive the upserts, and upserting the aggregate into a table that already holds it changes nothing |
| Load.TruncateCommitLosesTable | dags/retail_etl_dag.py:205-233 | with the truncate committing, a failure after it empties a non-empty table, where the intended load leaves it as it was |
| Pipeline.WriteCsv | dags/retail_etl_dag.py:158 | the artifact has one line per aggregate row, line i being row i written out |
| Pipeline.ReadRow | dags/retail_etl_dag.py:219-223 | a line reads as a row only when its id and quantity are whole numbers and its amount is a number, and then the row holds those numbers |
| Pipeline.ReadCsv | dags/retail_etl_dag.py:184 | the artifact reads back, one row per line, exactly when every line reads; otherwise some line does not |
| Pipeline.RowRoundTrip | dags/retail_etl_dag.py:158-184 | one aggregate row written to the artifact and read back is the same row: its id, quantity and amount parse back to their values |
| Pipeline.CsvRoundTrip | dags/retail_etl_dag.py:158-184 | the load reads back from the artifact exactly the rows the transform wrote to it |
| Pipeline.RunEtl | dags/retail_etl_dag.py:112-241 | corrected behaviour (both findings): a run reports the number of incomplete rows as dropped; it fails exactly when a load statement fails; on success the table is the aggregate of the cleaned rows, on failure the prior table |
| Pipeline.RunPublishesSums | dags/retail_etl_dag.py:141-227 | after a successful run the table holds exactly the cleaned rows' product ids, each with its sum of quantities and sum of amounts; after a failed run, the prior table |
| Pipeline.RerunAfterFailure | dags/retail_etl_dag.py:205-234 | a run after a failed run, on unchanged sources, publishes what one successful run would |
| Pipeline.SourceOrderIrrelevant | dags/retail_etl_dag.py:137 | the published table does not depend on which source is concatenated first |
| Dag.Step | dags/retail_etl_dag.py:251-252 | a transition changes only its own task's slot and never lowers an attempt count; a task starts exactly when it is waiting with every upstream task succeeded; only a running attempt can finish |
| Dag.Run | dags/retail_etl_dag.py:251-252 | over any sequence of transitions no task's attempt count goes down |
| Dag.InitialIsOrdered | dags/retail_etl_dag.py:251-252 | a fresh run satisfies the ordering invariant |
| Dag.StepKeepsOutcome | dags/retail_etl_dag.py:251-252 | a task that succeeded, failed or was marked upstream-failed keeps that status and its attempt count |
| Dag.StepKeepsOrdered | dags/retail_etl_dag.py:251-252 | every allowed transition keeps the invariant: no task attempted before all its upstream tasks succeeded, attempts within the budget |
| Dag.RunKeepsOrdered | dags/retail_etl_dag.py:251-252 | every allowed sequence of transitions keeps the invariant |
| Dag.DependenciesRespected | dags/retail_etl_dag.py:251-252 | in any run, transform is attempted only after both extracts succeeded, and load only after transform and both extracts succeeded |
| Dag.NeverStartsAfterUpstreamFailure | dags/retail_etl_dag.py:251-252 | once a task upstream of t has failed for good, t is never attempted and the failure stays |
| Dag.FailedExtractStopsRun | dags/retail_etl_dag.py:251-252 | a failed extract means neither transform nor load is ever attempted |
| Dag.ExtractsSucceed | dags/retail_etl_dag.py:251-252 | both extracts, started in either order, can run to success from a fresh run |
| Dag.TransformAndLoadSucceed | dags/retail_etl_dag.py:252 | after both extracts succeeded, transform and then load can run to success |
| Dag.HappyPathSucceeds | dags/retail_etl_dag.py:251-252 | with no failure every task succeeds at its first attempt |
| Dag.RetryThenFail | dags/retail_etl_dag.py:15 | a failing transform is attempted once more, then fails for good, and the load is marked upstream-failed |
| AsWritten.CoerceAsWritten | dags/retail_etl_dag.py:130-134 | where the corrected coercion reads a whole id or quantity, the as-written one reads the same number; the amount is coerced alike; every row complete under the corrected coercion is complete as written |
| AsWritten.StatementRow | dags/retail_etl_dag.py:219-223 | the id and quantity bound to an upsert are the row's cut toward zero, unchanged when whole; the amount is passed as it is |
| AsWritten.RawOnlineCoerces | dags/retail_etl_dag.py:130-134 | the text rows ("1.50", "1", "10.00") and ("1.70", "1", "20.00") coerce, as written, to ids 1.50 and 1.70 with quantity 1 |
| AsWritten.TruncHundredths | dags/retail_etl_dag.py:221-222 | int() cuts a number toward zero: the result is within one unit of it, on the side of zero |
| AsWritten.CleanedAsWritten | dags/retail_etl_dag.py:142 | with the as-written coercion, the two sales with ids 1.50 and 1.70 both survive cleaning |
| AsWritten.ListingOfTwoIds | dags/retail_etl_dag.py:147-153 | grouping keeps ids 1.50 and 1.70 apart, as two output rows |
| AsWritten.StatementsUnderOneId | dags/retail_etl_dag.py:213-224 | those two rows are upserted under the one id 1, the second overwriting the first |
| AsWritten.FractionalIdsCollide | dags/retail_etl_dag.py:132 | as written, the two text rows above publish the single row (1, 1, 20.00) where they came to 30.00 |

## Left out

- Extraction: the PostgreSQL query and the in-store CSV read (`dags/retail_etl_dag.py:42-72`, `82-102`) are I/O. The extracted record sets are inputs of the model.
- The XCom handoff of file paths and the artifact file names. The aggregate artifact is modelled as a sequence of text rows. The two raw artifacts are not modelled, because the extracts are not.
- Airflow configuration: the schedule, start date, catch-up, retry delay and operator declarations. The retry count (`retries: 1`) and the dependency edges are modelled.
- Dag: the model's task states are limited to waiting, running, succeeded, failed and upstream-failed. Airflow's other states (queued, scheduled, skipped, up-for-reschedule), timing, and the run-level state are not modelled.
- Schema creation (`dags/retail_etl_dag.py:193-201`): the model assumes the table exists. A failing schema statement is not numbered; it would end the load before the truncate, as `failAt = 0` does.
- Logging, and the closing of the cursor and connection in the `finally` block. The task's return message is modelled as the row count it reports.
- Coercion.ToNumeric: accepts only an optional sign, digits, an optional point and at most two fractional digits. Exponents, surrounding whitespace, more fractional digits, and "inf"/"nan" spellings count as missing, although `pd.to_numeric` reads them.
- Floating point: the `float()` conversion at line 223, pandas' float sums, and the rounding into `DECIMAL(10, 2)`. Amounts are exact hundredths. The ranges of the `INT` and `DECIMAL(10, 2)` columns are not modelled.
- Pipeline.ReadCsv: models the load's read of its own artifact. It rejects a cell that is not a number of the right kind, where `read_csv` would infer a column type.
- Concurrency: the two extracts running side by side, and overlapping runs against the same table. The core assumes one run at a time.
- `backend/` and `frontend/`: thin HTTP, ORM and template code outside the pipeline core.

## Findings

| source | as written | input that shows it | evidently intended | confidence | as-written member | corrected member |
|---|---|---|---|---|---|---|
| dags/retail_etl_dag.py:132 | `product_id` (and `quantity`) go through `pd.to_numeric`, which keeps a fractional part. Grouping keeps 1.5 and 1.7 apart, and the load's `int()` at line 221 then turns both into 1, so one upsert overwrites the other. | two online rows with product ids "1.50" and "1.70", quantity 1 each, amounts "10.00" and "20.00" | product ids and quantities are integers, so a row whose id is not a whole number is invalid and dropped, and every kept sale counts toward its own product | not executed | AsWritten.FractionalIdsCollide | Transform.FractionalIdIsDropped |
| dags/retail_etl_dag.py:205 | `TRUNCATE TABLE` runs inside the try block, but MySQL commits a truncate on its own, so the rollback at line 233 cannot bring the old rows back | a non-empty table and a load in which any upsert, or the commit, raises | a failed load leaves the table in its pre-run state | not executed; relies on MySQL's documented implicit commit for TRUNCATE | Load.TruncateCommitLosesTable | Load.LoadLeavesAggregateOrPriorTable |
