/**
 * One run of the pipeline, end to end: the transform's rows are written to
 * a CSV artifact, the load task reads them back and loads them into the
 * warehouse.
 */
module Pipeline {
  import opened Wrappers
  import opened Coercion
  import opened Transform
  import opened Load

  // ------------------------------------------------------------ the artifact

  /** One line of the aggregate artifact: the three columns as text. */
  datatype CsvRow = CsvRow(productId: string, totalQuantity: string, totalSaleAmount: string)

  /** One aggregate row as `to_csv` writes it. */
  function WriteRow(r: AggregatedSale): CsvRow {
    CsvRow(IntText(r.productId), IntText(r.totalQuantity), FormatCents(r.totalSaleAmount))
  }

  /** `to_csv` of the aggregate rows, without the index column. */
  function WriteCsv(rows: seq<AggregatedSale>): (lines: seq<CsvRow>)
    ensures |lines| == |rows|
    ensures forall i :: 0 <= i < |rows| ==> lines[i] == WriteRow(rows[i])
  {
    if rows == [] then [] else [WriteRow(rows[0])] + WriteCsv(rows[1..])
  }

  /** One line as `read_csv` and the load's conversions take it; None when
      a cell is not a number of the right kind. */
  function ReadRow(l: CsvRow): (r: Option<AggregatedSale>)
    ensures r.Some? ==> && ToNumeric(Text(l.productId)) == Some(100 * r.value.productId)
                        && ToNumeric(Text(l.totalQuantity)) == Some(100 * r.value.totalQuantity)
                        && ToNumeric(Text(l.totalSaleAmount)) == Some(r.value.totalSaleAmount)
  {
    match (ToInteger(Text(l.productId)), ToInteger(Text(l.totalQuantity)), ToNumeric(Text(l.totalSaleAmount)))
    case (Some(p), Some(q), Some(a)) => Some(AggregatedSale(p, q, a))
    case _ => None
  }

  /** The whole artifact read back; None when a line cannot be read. */
  function ReadCsv(lines: seq<CsvRow>): (r: Option<seq<AggregatedSale>>)
    ensures r.Some? ==> |r.value| == |lines| && forall i :: 0 <= i < |lines| ==> ReadRow(lines[i]) == Some(r.value[i])
    ensures r.None? ==> exists i :: 0 <= i < |lines| && ReadRow(lines[i]).None?
  {
    if lines == [] then Some([])
    else
      match (ReadRow(lines[0]), ReadCsv(lines[1..]))
      case (Some(r), Some(rest)) => Some([r] + rest)
      case _ => None
  }

  lemma RowRoundTrip(r: AggregatedSale)
    ensures ReadRow(WriteRow(r)) == Some(r)
  {
    IntTextRoundTrip(r.productId);
    IntTextRoundTrip(r.totalQuantity);
    FormatCentsRoundTrip(r.totalSaleAmount);
  }

  /** The handoff loses nothing: what the transform writes, the load reads
      back unchanged. */
  lemma {:induction false} CsvRoundTrip(rows: seq<AggregatedSale>)
    ensures ReadCsv(WriteCsv(rows)) == Some(rows)
  {
    if rows != [] {
      var lines := WriteCsv(rows);
      RowRoundTrip(rows[0]);
      CsvRoundTrip(rows[1..]);
      assert lines[0] == WriteRow(rows[0]) && lines[1..] == WriteCsv(rows[1..]);
      assert [rows[0]] + rows[1..] == rows;
    }
  }

  // ------------------------------------------------------------ the run

  /** The table the rows of one run would publish. */
  function Published(online: seq<RawSaleRecord>, instore: seq<RawSaleRecord>): map<int, Totals> {
    Aggregate(Clean(Combine(online, instore)))
  }

  /** One run: transform, hand the rows over through the artifact, load.
      The result is the load's, together with the transform's drop count. */
  method RunEtl(w: Warehouse, online: seq<RawSaleRecord>, instore: seq<RawSaleRecord>, failAt: Option<nat>)
    returns (r: Result<nat, LoadError>, dropped: nat)
    requires w.snapshot.None?
    modifies w
    ensures dropped == CountIncomplete(Combine(online, instore))
    ensures r.Failure? <==> FailsWithin(|TransformData(online, instore).rows|, failAt)
    ensures r.Success? ==> w.table == Published(online, instore)
    ensures r.Failure? ==> w.table == old(w.table)
    ensures w.snapshot == None
  {
    var out := TransformData(online, instore);
    TransformDataMeetsSpec(online, instore);
    var artifact := WriteCsv(out.rows);
    CsvRoundTrip(out.rows);
    var rows := ReadCsv(artifact).value;
    ListingListsAggregate(Published(online, instore));
    LoadLeavesAggregateOrPriorTable(w.table, rows, Published(online, instore), failAt);
    r := w.LoadToMysql(rows, failAt);
    dropped := out.dropped;
  }

  // ------------------------------------------------------------ properties

  /** The table after a run: on success, for every product of the cleaned
      rows and no other, the sums of its quantities and amounts; on failure,
      the table as it was. */
  lemma RunPublishesSums(before: map<int, Totals>, online: seq<RawSaleRecord>, instore: seq<RawSaleRecord>, failAt: Option<nat>)
    ensures var rows := TransformData(online, instore).rows;
            var cleaned := Clean(Combine(online, instore));
            var t := LoadedTable(before, rows, failAt);
            && (FailsWithin(|rows|, failAt) ==> t == before)
            && (!FailsWithin(|rows|, failAt) ==>
                  && t.Keys == ProductIds(cleaned)
                  && forall p :: p in t ==> t[p] == Totals(SumQuantity(cleaned, p), SumAmount(cleaned, p)))
  {
    var cleaned := Clean(Combine(online, instore));
    var rows := TransformData(online, instore).rows;
    ListingListsAggregate(Aggregate(cleaned));
    LoadLeavesAggregateOrPriorTable(before, rows, Aggregate(cleaned), failAt);
    forall p | p in Aggregate(cleaned)
      ensures Aggregate(cleaned)[p] == Totals(SumQuantity(cleaned, p), SumAmount(cleaned, p))
    {
      AggregateTotals(cleaned, p);
    }
  }

  /** A run after a failed run, on unchanged sources, publishes what one
      successful run would: the full refresh makes runs safe to repeat. */
  lemma RerunAfterFailure(before: map<int, Totals>, online: seq<RawSaleRecord>, instore: seq<RawSaleRecord>, failAt: Option<nat>)
    ensures var rows := TransformData(online, instore).rows;
            LoadedTable(LoadedTable(before, rows, failAt), rows, None) == Published(online, instore)
  {
    var rows := TransformData(online, instore).rows;
    ListingListsAggregate(Published(online, instore));
    RetryAfterFailure(before, rows, Published(online, instore), failAt);
  }

  /** The published table does not depend on which source is read first. */
  lemma SourceOrderIrrelevant(online: seq<RawSaleRecord>, instore: seq<RawSaleRecord>)
    ensures Published(online, instore) == Published(instore, online)
  {
    CleanAppend(CoerceAll(online), CoerceAll(instore));
    CleanAppend(CoerceAll(instore), CoerceAll(online));
    AggregateIgnoresOrder(Clean(CoerceAll(online)), Clean(CoerceAll(instore)));
  }
}
