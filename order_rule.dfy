/**
 * The reorder-quantity rule of the order check page: for one merged
 * product/sales row, the recommended order is the smallest multiple of the
 * product's order lot that is strictly larger than the quantity sold, or 0
 * when nothing was sold or the lot is missing or not positive.
 */
module OrderRule {
  import opened Wrappers

  /** One row of the merged products/sales table, as the rule sees it. */
  datatype Row = Row(
    jan: string,
    maker: string,
    name: string,
    quantitySold: int,
    orderLot: Option<int>)   // None: the cell is NaN or the column is absent

  /** A lot the rule can round to: present and positive. */
  predicate UsableLot(lot: Option<int>) {
    lot.Some? && lot.value > 0
  }

  /**
   * The recommended order quantity for one row. Python's floor division `//`
   * is only reached with a positive quantity and a positive lot, where it
   * agrees with Dafny's `/`.
   */
  function RecommendedOrder(row: Row): (r: int)
    ensures r >= 0
    ensures r > 0 <==> row.quantitySold > 0 && UsableLot(row.orderLot)
  {
    if row.quantitySold > 0 then
      match row.orderLot
      case None => 0
      case Some(lot) =>
        if lot <= 0 then 0
        else
          var q := row.quantitySold / lot;
          assert q >= 0;
          assert (q + 1) * lot >= lot;
          (q + 1) * lot
    else
      0
  }

  /** Number of lots in the least multiple of `lot` strictly above `q`, counted one lot at a time. */
  function LotsAbove(q: nat, lot: int): (n: nat)
    requires lot > 0
    decreases q
  {
    if q < lot then 1 else 1 + LotsAbove(q - lot, lot)
  }

  lemma {:induction false} DivCountsLots(q: nat, lot: int)
    requires lot > 0
    ensures q / lot + 1 == LotsAbove(q, lot)
  {
    if q >= lot {
      DivCountsLots(q - lot, lot);
      var d, m := (q - lot) / lot, (q - lot) % lot;
      assert q == lot * (d + 1) + m && 0 <= m < lot;
      DivUnique(q, lot, d + 1, m);
    }
  }

  /** Division is determined by quotient and remainder. */
  lemma DivUnique(q: int, lot: int, d: int, m: int)
    requires lot > 0 && q == lot * d + m && 0 <= m < lot
    ensures q / lot == d && q % lot == m
  {
    var d', m' := q / lot, q % lot;
    assert q == lot * d' + m' && 0 <= m' < lot;
    if d' < d {
      MulMonotone(lot, d' + 1, d);
    } else if d' > d {
      MulMonotone(lot, d + 1, d');
    }
  }

  lemma MulMonotone(c: int, a: int, b: int)
    requires c >= 0 && a <= b
    ensures c * a <= c * b
  {
  }

  /** The rule agrees with the lot-by-lot reference count. */
  lemma RecommendedMatchesLotCount(row: Row)
    requires row.quantitySold > 0 && UsableLot(row.orderLot)
    ensures RecommendedOrder(row) == LotsAbove(row.quantitySold, row.orderLot.value) * row.orderLot.value
  {
    DivCountsLots(row.quantitySold, row.orderLot.value);
  }

  /** A positive recommendation is an exact multiple of the lot. */
  lemma RecommendedIsLotMultiple(row: Row)
    requires RecommendedOrder(row) > 0
    ensures UsableLot(row.orderLot)
    ensures RecommendedOrder(row) % row.orderLot.value == 0
  {
    var lot := row.orderLot.value;
    var n := row.quantitySold / lot + 1;
    DivUnique(n * lot, lot, n, 0);
  }

  /** A positive recommendation lies strictly above the quantity sold and at most one lot above it. */
  lemma RecommendedWithinOneLot(row: Row)
    requires RecommendedOrder(row) > 0
    ensures UsableLot(row.orderLot)
    ensures row.quantitySold < RecommendedOrder(row) <= row.quantitySold + row.orderLot.value
  {
  }

  /** No multiple of the lot strictly above the quantity sold is smaller than the recommendation. */
  lemma RecommendedIsLeastMultipleAbove(row: Row, k: int)
    requires row.quantitySold > 0 && UsableLot(row.orderLot)
    requires k * row.orderLot.value > row.quantitySold
    ensures RecommendedOrder(row) <= k * row.orderLot.value
  {
    var q, lot := row.quantitySold, row.orderLot.value;
    var d := q / lot;
    assert lot * d <= q;
    if k <= d {
      MulMonotone(lot, k, d);
    }
    MulMonotone(lot, d + 1, k);
  }

  /** A quantity sold that is already an exact multiple of the lot still gets one extra lot. */
  lemma ExactMultipleGetsExtraLot(row: Row)
    requires row.quantitySold > 0 && UsableLot(row.orderLot)
    requires row.quantitySold % row.orderLot.value == 0
    ensures RecommendedOrder(row) == row.quantitySold + row.orderLot.value
  {
  }
}
