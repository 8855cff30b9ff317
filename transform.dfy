/**
 * The transform task: per-field numeric coercion of both extracted record
 * sets, their concatenation, the removal of rows with a missing required
 * field, and the per-product sums.
 */
module Transform {
  import opened Wrappers
  import opened Coercion

  /** One extracted row, before coercion. The in-store file has no sale date,
      so its rows carry Null there. */
  datatype RawSaleRecord = RawSaleRecord(productId: RawScalar, quantity: RawScalar, saleAmount: RawScalar, saleDate: RawScalar)

  /** A row after coercion: each required field is a number or missing. */
  datatype CoercedRecord = CoercedRecord(productId: Option<int>, quantity: Option<int>, saleAmount: Option<Cents>, saleDate: RawScalar)

  /** A row that survived cleaning: nothing in it is missing. */
  datatype NormalizedSale = NormalizedSale(productId: int, quantity: int, saleAmount: Cents)

  datatype Totals = Totals(quantity: int, saleAmount: Cents)

  /** One row of the aggregate, with the warehouse's column names. */
  datatype AggregatedSale = AggregatedSale(productId: int, totalQuantity: int, totalSaleAmount: Cents)

  /** What the transform hands on: the aggregate rows and the number of rows
      it removed as unusable. */
  datatype TransformOutput = TransformOutput(rows: seq<AggregatedSale>, dropped: nat)

  // ---------------------------------------------------------------- coercion

  /** Coerces the three required fields independently; the sale date is
      passed through untouched. */
  function Coerce(r: RawSaleRecord): (c: CoercedRecord)
    ensures c.productId.Some? ==> ToNumeric(r.productId) == Some(100 * c.productId.value)
    ensures c.quantity.Some? ==> ToNumeric(r.quantity) == Some(100 * c.quantity.value)
    ensures r.productId.Null? || r.quantity.Null? || r.saleAmount.Null? ==> !Complete(c)
  {
    CoercedRecord(ToInteger(r.productId), ToInteger(r.quantity), ToNumeric(r.saleAmount), r.saleDate)
  }

  /** The coercion loop over one record set: every row is coerced, in place. */
  function CoerceAll(rs: seq<RawSaleRecord>): (cs: seq<CoercedRecord>)
    ensures |cs| == |rs|
    ensures forall i :: 0 <= i < |rs| ==> cs[i] == Coerce(rs[i])
  {
    if rs == [] then [] else [Coerce(rs[0])] + CoerceAll(rs[1..])
  }

  /** Both sources, coerced, one after the other (`pd.concat`). */
  function Combine(online: seq<RawSaleRecord>, instore: seq<RawSaleRecord>): (c: seq<CoercedRecord>)
    ensures |c| == |online| + |instore|
  {
    CoerceAll(online) + CoerceAll(instore)
  }

  // ---------------------------------------------------------------- cleaning

  predicate Complete(c: CoercedRecord) {
    c.productId.Some? && c.quantity.Some? && c.saleAmount.Some?
  }

  function Normalize(c: CoercedRecord): NormalizedSale
    requires Complete(c)
  {
    NormalizedSale(c.productId.value, c.quantity.value, c.saleAmount.value)
  }

  /** The number of rows with at least one missing required field. */
  function CountIncomplete(cs: seq<CoercedRecord>): nat {
    if cs == [] then 0 else (if Complete(cs[0]) then 0 else 1) + CountIncomplete(cs[1..])
  }

  /** `dropna` over the three required fields: complete rows are kept, in
      order; the rows removed are exactly the incomplete ones. */
  function Clean(cs: seq<CoercedRecord>): (r: seq<NormalizedSale>)
    ensures |r| + CountIncomplete(cs) == |cs|
  {
    if cs == [] then []
    else if Complete(cs[0]) then [Normalize(cs[0])] + Clean(cs[1..])
    else Clean(cs[1..])
  }

  // ------------------------------------------------------------- aggregation

  function ProductIds(rows: seq<NormalizedSale>): set<int> {
    set x | x in rows :: x.productId
  }

  /** The sum of `quantity` over the rows of product p. */
  function SumQuantity(rows: seq<NormalizedSale>, p: int): int {
    if rows == [] then 0
    else (if rows[0].productId == p then rows[0].quantity else 0) + SumQuantity(rows[1..], p)
  }

  /** The sum of `sale_amount` over the rows of product p. */
  function SumAmount(rows: seq<NormalizedSale>, p: int): Cents {
    if rows == [] then 0
    else (if rows[0].productId == p then rows[0].saleAmount else 0) + SumAmount(rows[1..], p)
  }

  /** `groupby('product_id').agg(sum)`: the rows are folded in one by one,
      each adding to its product's running totals. */
  function Aggregate(rows: seq<NormalizedSale>): (agg: map<int, Totals>)
    ensures agg.Keys == ProductIds(rows)
  {
    if rows == [] then map[]
    else
      var front := rows[..|rows| - 1];
      var last := rows[|rows| - 1];
      var before := Aggregate(front);
      var t := if last.productId in before then before[last.productId] else Totals(0, 0);
      assert rows == front + [last];
      before[last.productId := Totals(t.quantity + last.quantity, t.saleAmount + last.saleAmount)]
  }

  // ----------------------------------------------------------------- listing

  /** The rows of a table, as written out: ascending product ids. */
  predicate Ascending(rows: seq<AggregatedSale>) {
    forall i, j :: 0 <= i < j < |rows| ==> rows[i].productId < rows[j].productId
  }

  /** Every entry of agg has a row in rows. */
  predicate Covers(rows: seq<AggregatedSale>, agg: map<int, Totals>) {
    forall p :: p in agg ==> exists i :: 0 <= i < |rows| && rows[i].productId == p
  }

  /** rows lists the table agg: every row is an entry of agg and every entry
      of agg is some row. Product ids are distinct. */
  predicate Lists(rows: seq<AggregatedSale>, agg: map<int, Totals>) {
    && (forall i, j :: 0 <= i < j < |rows| ==> rows[i].productId != rows[j].productId)
    && (forall i :: 0 <= i < |rows| ==>
          rows[i].productId in agg && agg[rows[i].productId] == Totals(rows[i].totalQuantity, rows[i].totalSaleAmount))
    && Covers(rows, agg)
  }

  lemma HasElement(ks: set<int>)
    requires ks != {}
    ensures exists x :: x in ks
  {
    if forall x :: x !in ks {
      assert false;
    }
  }

  lemma {:induction false} MinExists(ks: set<int>)
    requires ks != {}
    ensures exists m :: m in ks && forall k :: k in ks ==> m <= k
    decreases ks
  {
    HasElement(ks);
    var x :| x in ks;
    if ks == {x} {
      assert forall k :: k in ks ==> x <= k;
    } else {
      var others := ks - {x};
      assert others != {} by {
        if others == {} {
          assert false;
        }
      }
      MinExists(others);
      var m :| m in others && forall k :: k in others ==> m <= k;
      var least := if x < m then x else m;
      forall k | k in ks
        ensures least <= k
      {
        if k != x {
          assert k in others;
        }
      }
    }
  }

  function MinKey(ks: set<int>): (m: int)
    requires ks != {}
    ensures m in ks && forall k :: k in ks ==> m <= k
  {
    MinExists(ks);
    var m :| m in ks && forall k :: k in ks ==> m <= k;
    m
  }

  /** The aggregate as the transform writes it out, one row per product in
      ascending product order (groupby sorts its keys). */
  function Listing(agg: map<int, Totals>): (rows: seq<AggregatedSale>)
    ensures |rows| == |agg|
    decreases agg.Keys
  {
    if agg.Keys == {} then []
    else
      var k := MinKey(agg.Keys);
      [AggregatedSale(k, agg[k].quantity, agg[k].saleAmount)] + Listing(agg - {k})
  }

  lemma {:induction false} ListingRowsAreEntries(agg: map<int, Totals>)
    ensures forall i :: 0 <= i < |Listing(agg)| ==>
              Listing(agg)[i].productId in agg
              && agg[Listing(agg)[i].productId] == Totals(Listing(agg)[i].totalQuantity, Listing(agg)[i].totalSaleAmount)
    decreases agg.Keys
  {
    if agg.Keys != {} {
      var k := MinKey(agg.Keys);
      var rest := agg - {k};
      ListingRowsAreEntries(rest);
      var tail := Listing(rest);
      assert forall i :: 0 < i < |Listing(agg)| ==> Listing(agg)[i] == tail[i - 1];
    }
  }

  lemma {:induction false} ListingIsAscending(agg: map<int, Totals>)
    ensures Ascending(Listing(agg))
    decreases agg.Keys
  {
    if agg.Keys != {} {
      var k := MinKey(agg.Keys);
      var rest := agg - {k};
      var tail := Listing(rest);
      ListingIsAscending(rest);
      ListingRowsAreEntries(rest);
      var rows := Listing(agg);
      forall i, j | 0 <= i < j < |rows|
        ensures rows[i].productId < rows[j].productId
      {
        assert rows[j] == tail[j - 1];
        assert tail[j - 1].productId in rest;
        if i > 0 {
          assert rows[i] == tail[i - 1];
        }
      }
    }
  }

  lemma {:induction false} ListingCoversAggregate(agg: map<int, Totals>)
    ensures Covers(Listing(agg), agg)
    decreases agg.Keys
  {
    if agg.Keys != {} {
      var k := MinKey(agg.Keys);
      var rest := agg - {k};
      var tail := Listing(rest);
      ListingCoversAggregate(rest);
      var rows := Listing(agg);
      assert rows == [AggregatedSale(k, agg[k].quantity, agg[k].saleAmount)] + tail;
      forall p | p in agg
        ensures exists i :: 0 <= i < |rows| && rows[i].productId == p
      {
        if p == k {
          assert rows[0].productId == p;
        } else {
          assert p in rest;
          var j :| 0 <= j < |tail| && tail[j].productId == p;
          assert rows[j + 1].productId == p;
        }
      }
    }
  }

  /** The written-out aggregate has one row per product, ascending, each
      carrying that product's totals, and no other rows. */
  lemma ListingListsAggregate(agg: map<int, Totals>)
    ensures Lists(Listing(agg), agg) && Ascending(Listing(agg))
  {
    ListingRowsAreEntries(agg);
    ListingIsAscending(agg);
    ListingCoversAggregate(agg);
  }

  // ---------------------------------------------------- coercion properties

  /** Coercion is per field: a required field whose text is not a numeral
      becomes missing, and the other fields of the row are what they would
      have been anyway. */
  lemma CoercionIsPerField(r: RawSaleRecord, bad: string)
    requires ParseDecimal(bad).None?
    ensures Coerce(r.(productId := Text(bad))) == Coerce(r).(productId := None)
    ensures Coerce(r.(quantity := Text(bad))) == Coerce(r).(quantity := None)
    ensures Coerce(r.(saleAmount := Text(bad))) == Coerce(r).(saleAmount := None)
  {
  }

  /** Coercing each source and then concatenating is the same as coercing
      the concatenation. */
  lemma {:induction false} CoerceAllAppend(a: seq<RawSaleRecord>, b: seq<RawSaleRecord>)
    ensures CoerceAll(a + b) == CoerceAll(a) + CoerceAll(b)
  {
    if a != [] {
      assert (a + b)[1..] == a[1..] + b;
      CoerceAllAppend(a[1..], b);
    } else {
      assert a + b == b;
    }
  }

  /** The combined set holds every row of both sources, missing values
      included: the online rows first, then the in-store rows. */
  lemma CombineKeepsEveryRow(online: seq<RawSaleRecord>, instore: seq<RawSaleRecord>)
    ensures |Combine(online, instore)| == |online| + |instore|
    ensures forall i :: 0 <= i < |online| ==> Combine(online, instore)[i] == Coerce(online[i])
    ensures forall j :: 0 <= j < |instore| ==> Combine(online, instore)[|online| + j] == Coerce(instore[j])
    ensures Combine(online, instore) == CoerceAll(online + instore)
  {
    CoerceAllAppend(online, instore);
  }

  /** Two digits read as a number below one hundred. */
  lemma TwoDigitsBound(f: string)
    requires AllDigits(f) && |f| == 2
    ensures DigitsValue(f) < 100
  {
    var hi := f[..1];
    assert hi[..0] == [];
    assert AllDigits(hi) && hi[0] == f[0];
    assert DigitsValue(hi) == f[0] as int - '0' as int;
  }

  lemma HundredsRemainder(a: nat, b: nat)
    requires b < 100
    ensures (100 * a + b) % 100 == b
  {
  }

  /** A numeral with a non-zero fractional part ("1.50") is a number but not
      a whole number. */
  lemma FractionalNumeral(d: string, f: string)
    requires AllDigits(d) && AllDigits(f) && |f| == 2 && DigitsValue(f) != 0
    ensures ToNumeric(Text(d + "." + f)) == Some(100 * DigitsValue(d) + DigitsValue(f))
    ensures ToInteger(Text(d + "." + f)) == None
  {
    var c := 100 * DigitsValue(d) + DigitsValue(f);
    TwoPlaceNumeral(d, f);
    assert ToNumeric(Text(d + "." + f)) == Some(c);
    TwoDigitsBound(f);
    NotWhole(Text(d + "." + f), DigitsValue(d), DigitsValue(f));
  }

  lemma NotWhole(x: RawScalar, whole: nat, frac: nat)
    requires ToNumeric(x) == Some(100 * whole + frac) && 0 < frac < 100
    ensures ToInteger(x) == None
  {
    HundredsRemainder(whole, frac);
  }

  /** A product id written with a fractional part is a numeral, but not a
      whole number: it counts as missing and its row is dropped. */
  lemma FractionalIdIsDropped(r: RawSaleRecord, d: string, f: string)
    requires AllDigits(d) && AllDigits(f) && |f| == 2 && DigitsValue(f) != 0
    requires r.productId == Text(d + "." + f)
    ensures ToNumeric(r.productId).Some?
    ensures Coerce(r).productId == None && !Complete(Coerce(r))
  {
    FractionalNumeral(d, f);
  }

  // ---------------------------------------------------- cleaning properties

  /** One row alone: kept, normalized, exactly when it is complete. With
      CleanAppend this determines Clean on every input. */
  lemma CleanSingle(c: CoercedRecord)
    ensures Clean([c]) == (if Complete(c) then [Normalize(c)] else [])
  {
    assert [c][1..] == [];
  }

  lemma {:induction false} CleanAppend(a: seq<CoercedRecord>, b: seq<CoercedRecord>)
    ensures Clean(a + b) == Clean(a) + Clean(b)
  {
    if a != [] {
      assert (a + b)[1..] == a[1..] + b;
      CleanAppend(a[1..], b);
    } else {
      assert a + b == b;
    }
  }

  /** Every surviving row comes from a complete row of the input. */
  lemma {:induction false} CleanKeepsOnlyComplete(cs: seq<CoercedRecord>)
    ensures forall x :: x in Clean(cs) ==> exists i :: 0 <= i < |cs| && Complete(cs[i]) && Normalize(cs[i]) == x
  {
    if cs != [] {
      CleanKeepsOnlyComplete(cs[1..]);
      forall x | x in Clean(cs)
        ensures exists i :: 0 <= i < |cs| && Complete(cs[i]) && Normalize(cs[i]) == x
      {
        if Complete(cs[0]) && x == Normalize(cs[0]) {
          assert Complete(cs[0]) && Normalize(cs[0]) == x;
        } else {
          assert x in Clean(cs[1..]);
          var j :| 0 <= j < |cs[1..]| && Complete(cs[1..][j]) && Normalize(cs[1..][j]) == x;
          assert cs[j + 1] == cs[1..][j];
        }
      }
    }
  }

  /** Every complete row of the input survives. */
  lemma {:induction false} CleanKeepsEveryComplete(cs: seq<CoercedRecord>)
    ensures forall i :: 0 <= i < |cs| && Complete(cs[i]) ==> Normalize(cs[i]) in Clean(cs)
  {
    if cs != [] {
      CleanKeepsEveryComplete(cs[1..]);
      forall i | 0 <= i < |cs| && Complete(cs[i])
        ensures Normalize(cs[i]) in Clean(cs)
      {
        if i > 0 {
          assert cs[i] == cs[1..][i - 1];
        }
      }
    }
  }

  /** A row with a missing required field changes nothing downstream: the
      cleaned set, and therefore every aggregate, is as if it were absent. */
  lemma DroppedRowContributesNothing(a: seq<CoercedRecord>, c: CoercedRecord, b: seq<CoercedRecord>)
    requires !Complete(c)
    ensures Clean(a + [c] + b) == Clean(a + b)
    ensures Aggregate(Clean(a + [c] + b)) == Aggregate(Clean(a + b))
  {
    CleanAppend(a + [c], b);
    CleanAppend(a, [c]);
    CleanAppend(a, b);
    assert Clean([c]) == [];
  }

  // ------------------------------------------------- aggregation properties

  lemma {:induction false} SumsAppend(a: seq<NormalizedSale>, b: seq<NormalizedSale>, p: int)
    ensures SumQuantity(a + b, p) == SumQuantity(a, p) + SumQuantity(b, p)
    ensures SumAmount(a + b, p) == SumAmount(a, p) + SumAmount(b, p)
  {
    if a != [] {
      assert (a + b)[1..] == a[1..] + b;
      SumsAppend(a[1..], b, p);
    } else {
      assert a + b == b;
    }
  }

  /** Each product's totals are the sums of quantity and of sale amount over
      exactly the cleaned rows of that product. */
  lemma {:induction false} AggregateTotals(rows: seq<NormalizedSale>, p: int)
    requires p in Aggregate(rows)
    ensures Aggregate(rows)[p] == Totals(SumQuantity(rows, p), SumAmount(rows, p))
  {
    var front := rows[..|rows| - 1];
    var last := rows[|rows| - 1];
    assert rows == front + [last];
    SumsAppend(front, [last], p);
    if p in Aggregate(front) {
      AggregateTotals(front, p);
    } else {
      assert p !in ProductIds(front);
      SumsOfAbsentProduct(front, p);
    }
  }

  lemma {:induction false} SumsOfAbsentProduct(rows: seq<NormalizedSale>, p: int)
    requires p !in ProductIds(rows)
    ensures SumQuantity(rows, p) == 0 && SumAmount(rows, p) == 0
  {
    if rows != [] {
      assert rows[0] in rows;
      assert ProductIds(rows[1..]) <= ProductIds(rows) by {
        forall x | x in rows[1..] ensures x in rows { }
      }
      SumsOfAbsentProduct(rows[1..], p);
    }
  }

  lemma ProductIdsAppend(a: seq<NormalizedSale>, b: seq<NormalizedSale>)
    ensures ProductIds(a + b) == ProductIds(a) + ProductIds(b)
  {
    assert forall r :: r in a + b <==> r in a || r in b;
  }

  lemma {:induction false} SwappedTotals(a: seq<NormalizedSale>, b: seq<NormalizedSale>, p: int)
    requires p in Aggregate(a + b) && p in Aggregate(b + a)
    ensures Aggregate(a + b)[p] == Aggregate(b + a)[p]
  {
    AggregateTotals(a + b, p);
    AggregateTotals(b + a, p);
    SumsAppend(a, b, p);
    SumsAppend(b, a, p);
  }

  /** The aggregate does not depend on which source is read first. */
  lemma {:induction false} AggregateIgnoresOrder(a: seq<NormalizedSale>, b: seq<NormalizedSale>)
    ensures Aggregate(a + b) == Aggregate(b + a)
  {
    var x, y := Aggregate(a + b), Aggregate(b + a);
    ProductIdsAppend(a, b);
    ProductIdsAppend(b, a);
    assert x.Keys == y.Keys;
    forall p | p in x
      ensures x[p] == y[p]
    {
      SwappedTotals(a, b, p);
    }
  }

  // --------------------------------------------------------------- the task

  /** The transform task: coerce, concatenate, clean, aggregate; the drop
      count is the number of rows before cleaning minus the number after. */
  function TransformData(online: seq<RawSaleRecord>, instore: seq<RawSaleRecord>): (out: TransformOutput)
    ensures out.dropped == CountIncomplete(Combine(online, instore))
    ensures |out.rows| == |ProductIds(Clean(Combine(online, instore)))|
  {
    var combined := Combine(online, instore);
    var cleaned := Clean(combined);
    TransformOutput(Listing(Aggregate(cleaned)), |combined| - |cleaned|)
  }

  /** What the transform promises of its output: the drop count is the
      number of combined rows with a missing required field; there is one
      row per product id of the cleaned rows, in ascending order, and no
      other row; each row carries its product's sums. */
  lemma TransformDataMeetsSpec(online: seq<RawSaleRecord>, instore: seq<RawSaleRecord>)
    ensures var combined := Combine(online, instore);
            var cleaned := Clean(combined);
            var out := TransformData(online, instore);
            && out.dropped == CountIncomplete(combined)
            && Ascending(out.rows)
            && (forall i :: 0 <= i < |out.rows| ==>
                  && out.rows[i].productId in ProductIds(cleaned)
                  && out.rows[i].totalQuantity == SumQuantity(cleaned, out.rows[i].productId)
                  && out.rows[i].totalSaleAmount == SumAmount(cleaned, out.rows[i].productId))
            && (forall p :: p in ProductIds(cleaned) ==> exists i :: 0 <= i < |out.rows| && out.rows[i].productId == p)
  {
    var cleaned := Clean(Combine(online, instore));
    var agg := Aggregate(cleaned);
    var rows := TransformData(online, instore).rows;
    ListingListsAggregate(agg);
    forall i | 0 <= i < |rows|
      ensures rows[i].totalQuantity == SumQuantity(cleaned, rows[i].productId)
      ensures rows[i].totalSaleAmount == SumAmount(cleaned, rows[i].productId)
    {
      AggregateTotals(cleaned, rows[i].productId);
    }
  }

  // --------------------------------------------------------------- examples

  lemma ExampleAggregate()
    ensures Aggregate([NormalizedSale(1, 2, 999), NormalizedSale(2, 1, 1999), NormalizedSale(1, 3, 1497)])
            == map[1 := Totals(5, 2496), 2 := Totals(1, 1999)]
  {
    var cleaned := [NormalizedSale(1, 2, 999), NormalizedSale(2, 1, 1999), NormalizedSale(1, 3, 1497)];
    assert cleaned[..2] == [cleaned[0], cleaned[1]];
    assert cleaned[..2][..1] == [cleaned[0]];
    assert Aggregate([cleaned[0]]) == map[1 := Totals(2, 999)];
  }

  lemma ExampleListing()
    ensures Listing(map[1 := Totals(5, 2496), 2 := Totals(1, 1999)])
            == [AggregatedSale(1, 5, 2496), AggregatedSale(2, 1, 1999)]
  {
    var agg := map[1 := Totals(5, 2496), 2 := Totals(1, 1999)];
    assert agg.Keys == {1, 2};
    assert MinKey(agg.Keys) == 1;
    assert agg - {1} == map[2 := Totals(1, 1999)];
    assert MinKey({2}) == 2;
    assert map[2 := Totals(1, 1999)] - {2} == map[];
  }

  /** A cell of digits coerces to the whole number they denote. */
  lemma WholeCell(d: string, n: nat)
    requires 0 < |d| && AllDigits(d) && DigitsValue(d) == n
    ensures ToInteger(Text(d)) == Some(n)
  {
    WholeNumeral(d);
    WholeValue(Text(d), n);
  }

  /** A cell "d.ff" coerces to that amount in hundredths. */
  lemma AmountCell(d: string, f: string, c: Cents)
    requires AllDigits(d) && AllDigits(f) && |f| == 2 && c == 100 * DigitsValue(d) + DigitsValue(f)
    ensures ToNumeric(Text(d + "." + f)) == Some(c)
  {
    TwoPlaceNumeral(d, f);
  }

  /** Two online sales, (1, 2, "9.99") and (2, 1, "19.99"), and one in-store
      sale, (1, 3, "14.97"), as the extracts hand them over. */
  const ExampleOnline := [RawSaleRecord(Text("1"), Text("2"), Text("9.99"), Text("2024-03-01")),
                          RawSaleRecord(Text("2"), Text("1"), Text("19.99"), Text("2024-03-01"))]
  const ExampleInstore := [RawSaleRecord(Text("1"), Text("3"), Text("14.97"), Null)]

  lemma ExampleAmount1()
    ensures ToNumeric(Text("9.99")) == Some(999)
  {
    assert DigitsValue("9") == 9 && DigitsValue("99") == 99;
    AmountCell("9", "99", 999);
    assert "9" + "." + "99" == "9.99";
  }

  lemma ExampleAmount2()
    ensures ToNumeric(Text("19.99")) == Some(1999)
  {
    assert DigitsValue("19") == 19 && DigitsValue("99") == 99;
    AmountCell("19", "99", 1999);
    assert "19" + "." + "99" == "19.99";
  }

  lemma ExampleAmount3()
    ensures ToNumeric(Text("14.97")) == Some(1497)
  {
    assert DigitsValue("14") == 14 && DigitsValue("97") == 97;
    AmountCell("14", "97", 1497);
    assert "14" + "." + "97" == "14.97";
  }

  lemma ExampleWholes()
    ensures ToInteger(Text("1")) == Some(1)
    ensures ToInteger(Text("2")) == Some(2)
    ensures ToInteger(Text("3")) == Some(3)
  {
    WholeCell("1", 1);
    WholeCell("2", 2);
    WholeCell("3", 3);
  }

  lemma ExampleCoerces()
    ensures Combine(ExampleOnline, ExampleInstore)
            == [CoercedRecord(Some(1), Some(2), Some(999), Text("2024-03-01")),
                CoercedRecord(Some(2), Some(1), Some(1999), Text("2024-03-01")),
                CoercedRecord(Some(1), Some(3), Some(1497), Null)]
  {
    ExampleAmount1();
    ExampleAmount2();
    ExampleAmount3();
    ExampleWholes();
  }

  /** The transform of those sales: product 1 with the totals (5, 24.96),
      product 2 with (1, 19.99), in that order, and nothing dropped. */
  lemma TwoSourcesExample()
    ensures TransformData(ExampleOnline, ExampleInstore)
            == TransformOutput([AggregatedSale(1, 5, 2496), AggregatedSale(2, 1, 1999)], 0)
  {
    var combined := [CoercedRecord(Some(1), Some(2), Some(999), Text("2024-03-01")),
                     CoercedRecord(Some(2), Some(1), Some(1999), Text("2024-03-01")),
                     CoercedRecord(Some(1), Some(3), Some(1497), Null)];
    var cleaned := [NormalizedSale(1, 2, 999), NormalizedSale(2, 1, 1999), NormalizedSale(1, 3, 1497)];
    ExampleCoerces();
    assert Clean(combined) == cleaned by {
      assert combined[1..][1..] == [combined[2]];
    }
    ExampleAggregate();
    ExampleListing();
  }

  /** An online row with a missing required field, whatever made it
      missing, is dropped wherever it stands: the drop count grows by one and
      the aggregate rows are as if the row were absent. */
  lemma {:induction false} IncompleteRowIsDropped(before: seq<RawSaleRecord>, bad: RawSaleRecord, after: seq<RawSaleRecord>,
                                                  instore: seq<RawSaleRecord>)
    requires !Complete(Coerce(bad))
    ensures TransformData(before + [bad] + after, instore).rows == TransformData(before + after, instore).rows
    ensures TransformData(before + [bad] + after, instore).dropped == TransformData(before + after, instore).dropped + 1
  {
    CombineWithInsertedRow(before, bad, after, instore);
    CombineWithoutInsertedRow(before, after, instore);
    DroppedRowContributesNothing(CoerceAll(before), Coerce(bad), CoerceAll(after) + CoerceAll(instore));
  }

  /** The same for a row of the in-store set. */
  lemma {:induction false} IncompleteInstoreRowIsDropped(online: seq<RawSaleRecord>, before: seq<RawSaleRecord>, bad: RawSaleRecord,
                                                         after: seq<RawSaleRecord>)
    requires !Complete(Coerce(bad))
    ensures TransformData(online, before + [bad] + after).rows == TransformData(online, before + after).rows
    ensures TransformData(online, before + [bad] + after).dropped == TransformData(online, before + after).dropped + 1
  {
    CoerceAllSingle(bad);
    CoerceAllAppend(before, [bad]);
    CoerceAllAppend(before + [bad], after);
    CoerceAllAppend(before, after);
    var a := CoerceAll(online) + CoerceAll(before);
    SeqAssoc(CoerceAll(online), CoerceAll(before) + [Coerce(bad)], CoerceAll(after));
    SeqAssoc(CoerceAll(online), CoerceAll(before), [Coerce(bad)]);
    SeqAssoc(CoerceAll(online), CoerceAll(before), CoerceAll(after));
    assert Combine(online, before + [bad] + after) == a + [Coerce(bad)] + CoerceAll(after);
    assert Combine(online, before + after) == a + CoerceAll(after);
    DroppedRowContributesNothing(a, Coerce(bad), CoerceAll(after));
  }

  /** In particular, an online row whose product id has a character no
      numeral has (say "abc") is dropped. */
  lemma NonNumeralIdIsDropped(before: seq<RawSaleRecord>, bad: RawSaleRecord, after: seq<RawSaleRecord>,
                              instore: seq<RawSaleRecord>, i: nat)
    requires bad.productId.Text? && i < |bad.productId.text| && !IsNumeralChar(bad.productId.text[i])
    ensures TransformData(before + [bad] + after, instore).rows == TransformData(before + after, instore).rows
    ensures TransformData(before + [bad] + after, instore).dropped == TransformData(before + after, instore).dropped + 1
  {
    WordIsMissing(bad.productId.text, i);
    IncompleteRowIsDropped(before, bad, after, instore);
  }

  lemma {:induction false} CombineWithInsertedRow(before: seq<RawSaleRecord>, bad: RawSaleRecord, after: seq<RawSaleRecord>,
                                                  instore: seq<RawSaleRecord>)
    ensures Combine(before + [bad] + after, instore)
            == CoerceAll(before) + [Coerce(bad)] + (CoerceAll(after) + CoerceAll(instore))
  {
    CoerceAllSingle(bad);
    CoerceAllAppend(before, [bad]);
    CoerceAllAppend(before + [bad], after);
    SeqAssoc(CoerceAll(before) + [Coerce(bad)], CoerceAll(after), CoerceAll(instore));
  }

  lemma CoerceAllSingle(r: RawSaleRecord)
    ensures CoerceAll([r]) == [Coerce(r)]
  {
    assert [r][1..] == [];
  }

  lemma SeqAssoc<T>(a: seq<T>, b: seq<T>, c: seq<T>)
    ensures a + b + c == a + (b + c)
  {
  }

  lemma CombineWithoutInsertedRow(before: seq<RawSaleRecord>, after: seq<RawSaleRecord>, instore: seq<RawSaleRecord>)
    ensures Combine(before + after, instore) == CoerceAll(before) + (CoerceAll(after) + CoerceAll(instore))
  {
    CoerceAllAppend(before, after);
    SeqAssoc(CoerceAll(before), CoerceAll(after), CoerceAll(instore));
  }
}
