/**
 * The pipeline with the product id and the quantity coerced as the DAG
 * coerces them: as any number, a fractional part included. The load then
 * turns them into integers by truncation, after the rows were grouped by
 * the untruncated ids.
 */
module AsWritten {
  import opened Wrappers
  import opened Coercion
  import opened Transform
  import opened Load

  /** All three required fields through the numeric coercion; the product id
      and the quantity are in hundredths here, like the amount. */
  function CoerceAsWritten(r: RawSaleRecord): (c: CoercedRecord)
    ensures Coerce(r).productId.Some? ==> c.productId == Some(100 * Coerce(r).productId.value)
    ensures Coerce(r).quantity.Some? ==> c.quantity == Some(100 * Coerce(r).quantity.value)
    ensures c.saleAmount == Coerce(r).saleAmount
    ensures Complete(Coerce(r)) ==> Complete(c)
  {
    CoercedRecord(ToNumeric(r.productId), ToNumeric(r.quantity), ToNumeric(r.saleAmount), r.saleDate)
  }

  function CoerceAllAsWritten(rs: seq<RawSaleRecord>): (cs: seq<CoercedRecord>)
    ensures |cs| == |rs|
  {
    if rs == [] then [] else [CoerceAsWritten(rs[0])] + CoerceAllAsWritten(rs[1..])
  }

  /** `int()` of a number given in hundredths: the fraction is cut off,
      toward zero. */
  function TruncHundredths(c: Cents): (n: int)
    ensures 0 <= c ==> 100 * n <= c < 100 * n + 100
    ensures c < 0 ==> 100 * n - 100 < c <= 100 * n
  {
    if c >= 0 then c / 100 else -((-c) / 100)
  }

  /** The values the load binds to one upsert: `int` of the id and of the
      quantity, the amount as it is. */
  function StatementRow(row: AggregatedSale): (s: AggregatedSale)
    ensures 0 <= row.productId ==> 100 * s.productId <= row.productId < 100 * s.productId + 100
    ensures row.productId < 0 ==> 100 * s.productId - 100 < row.productId <= 100 * s.productId
    ensures row.productId % 100 == 0 ==> 100 * s.productId == row.productId
    ensures row.totalQuantity % 100 == 0 ==> 100 * s.totalQuantity == row.totalQuantity
    ensures s.totalSaleAmount == row.totalSaleAmount
  {
    AggregatedSale(TruncHundredths(row.productId), TruncHundredths(row.totalQuantity), row.totalSaleAmount)
  }

  function StatementRows(rows: seq<AggregatedSale>): (out: seq<AggregatedSale>)
    ensures |out| == |rows|
  {
    if rows == [] then [] else [StatementRow(rows[0])] + StatementRows(rows[1..])
  }

  /** The table a successful run publishes, as written (compare
      Pipeline.Published). */
  function PublishedAsWritten(online: seq<RawSaleRecord>, instore: seq<RawSaleRecord>): map<int, Totals> {
    var cleaned := Clean(CoerceAllAsWritten(online) + CoerceAllAsWritten(instore));
    UpsertAll(map[], StatementRows(Listing(Aggregate(cleaned))))
  }

  // ------------------------------------------------------------ the counterexample

  /** Two online sales of one item each, with product ids "1.50" and
      "1.70" and amounts "10.00" and "20.00". */
  const RawOnline := [RawSaleRecord(Text("1.50"), Text("1"), Text("10.00"), Null),
                      RawSaleRecord(Text("1.70"), Text("1"), Text("20.00"), Null)]

  /** The same two sales as the coercion leaves them, in hundredths. Any
      numeral "d.ff" is read this way (FractionalNumeral). */
  const Coerced := [CoercedRecord(Some(150), Some(100), Some(1000), Null),
                    CoercedRecord(Some(170), Some(100), Some(2000), Null)]

  lemma IdOneFifty()
    ensures ToNumeric(Text("1.50")) == Some(150)
  {
    assert DigitsValue("1") == 1 && DigitsValue("50") == 50;
    AmountCell("1", "50", 150);
    assert "1" + "." + "50" == "1.50";
  }

  lemma IdOneSeventy()
    ensures ToNumeric(Text("1.70")) == Some(170)
  {
    assert DigitsValue("1") == 1 && DigitsValue("70") == 70;
    AmountCell("1", "70", 170);
    assert "1" + "." + "70" == "1.70";
  }

  lemma AmountTen()
    ensures ToNumeric(Text("10.00")) == Some(1000)
  {
    assert DigitsValue("10") == 10 && DigitsValue("00") == 0;
    AmountCell("10", "00", 1000);
    assert "10" + "." + "00" == "10.00";
  }

  lemma AmountTwenty()
    ensures ToNumeric(Text("20.00")) == Some(2000)
  {
    assert DigitsValue("20") == 20 && DigitsValue("00") == 0;
    AmountCell("20", "00", 2000);
    assert "20" + "." + "00" == "20.00";
  }

  lemma RawOnlineCoerces()
    ensures CoerceAllAsWritten(RawOnline) == Coerced
  {
    IdOneFifty();
    IdOneSeventy();
    AmountTen();
    AmountTwenty();
    WholeCell("1", 1);
    assert RawOnline[1..][1..] == [];
  }

  lemma ListingOfTwoIds()
    ensures Listing(Aggregate([NormalizedSale(150, 100, 1000), NormalizedSale(170, 100, 2000)]))
            == [AggregatedSale(150, 100, 1000), AggregatedSale(170, 100, 2000)]
  {
    var rows := [NormalizedSale(150, 100, 1000), NormalizedSale(170, 100, 2000)];
    assert rows[..1] == [rows[0]] && [rows[0]][..0] == [];
    var agg := map[150 := Totals(100, 1000), 170 := Totals(100, 2000)];
    assert Aggregate(rows) == agg;
    assert agg.Keys == {150, 170};
    assert MinKey(agg.Keys) == 150;
    assert agg - {150} == map[170 := Totals(100, 2000)];
    assert MinKey({170}) == 170;
    assert map[170 := Totals(100, 2000)] - {170} == map[];
  }

  lemma CleanedAsWritten(online: seq<RawSaleRecord>)
    requires CoerceAllAsWritten(online) == Coerced
    ensures Clean(CoerceAllAsWritten(online) + CoerceAllAsWritten([]))
            == [NormalizedSale(150, 100, 1000), NormalizedSale(170, 100, 2000)]
  {
    var cs := CoerceAllAsWritten(online);
    assert cs + CoerceAllAsWritten([]) == Coerced;
    assert Coerced[1..][1..] == [];
  }

  lemma StatementsUnderOneId()
    ensures UpsertAll(map[], StatementRows([AggregatedSale(150, 100, 1000), AggregatedSale(170, 100, 2000)]))
            == map[1 := Totals(1, 2000)]
  {
    var rows := [AggregatedSale(150, 100, 1000), AggregatedSale(170, 100, 2000)];
    assert rows[1..][1..] == [];
    var stmts := StatementRows(rows);
    assert stmts == [AggregatedSale(1, 1, 1000), AggregatedSale(1, 1, 2000)];
    assert stmts[..1] == [stmts[0]] && [stmts[0]][..0] == [];
  }

  /** As written, the two sales are grouped apart, then loaded under the one
      id 1: the second upsert overwrites the first, and the published table
      holds 20.00 where the sales came to 30.00, under a product id no sale
      carried. */
  lemma FractionalIdsCollide()
    ensures PublishedAsWritten(RawOnline, []) == map[1 := Totals(1, 2000)]
  {
    RawOnlineCoerces();
    CleanedAsWritten(RawOnline);
    ListingOfTwoIds();
    StatementsUnderOneId();
  }
}
