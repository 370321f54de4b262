/**
 * The table step of the order check page: the inner merge of the product
 * master with the sales results on the JAN code, the two columns added to the
 * merged frame in place (recommended order and "order needed"), and the order
 * list made of the rows that need an order, cut down to six columns.
 */
module OrderTable {
  import opened Wrappers
  import opened OrderRule

  /** A row of the product master (`products`). */
  datatype Product = Product(jan: string, maker: string, name: string, orderLot: Option<int>)

  /** A row of the sales results (`sales`). */
  datatype Sale = Sale(jan: string, quantitySold: int)

  /** A row of the order list: `jan, maker, name, quantity_sold, order_lot, 推奨発注数`. */
  datatype OrderLine = OrderLine(
    jan: string,
    maker: string,
    name: string,
    quantitySold: int,
    orderLot: Option<int>,
    recommended: int)

  /** The merged row for a product and a sale with the same JAN code. */
  function Joined(p: Product, s: Sale): Row {
    Row(p.jan, p.maker, p.name, s.quantitySold, p.orderLot)
  }

  /** A row is in the inner merge exactly when it comes from a product and a sale sharing a JAN code. */
  ghost predicate InJoin(row: Row, products: seq<Product>, sales: seq<Sale>) {
    exists p, s :: p in products && s in sales && p.jan == s.jan && row == Joined(p, s)
  }

  /** The merged rows of one product: one per sale with its JAN code, in the order of the sales. */
  function RowsFor(p: Product, sales: seq<Sale>): (r: seq<Row>)
    ensures |r| <= |sales|
    ensures forall row :: row in r <==> exists s :: s in sales && s.jan == p.jan && row == Joined(p, s)
  {
    if sales == [] then []
    else
      (if sales[0].jan == p.jan then [Joined(p, sales[0])] else []) + RowsFor(p, sales[1..])
  }

  /**
   * `pd.merge(products, sales, on="jan", how="inner")`: the products in their
   * order, each followed by its matching sales in their order.
   */
  function InnerJoin(products: seq<Product>, sales: seq<Sale>): (r: seq<Row>)
    ensures forall row :: row in r <==> InJoin(row, products, sales)
  {
    if products == [] then []
    else
      var r := RowsFor(products[0], sales) + InnerJoin(products[1..], sales);
      assert forall row :: InJoin(row, products, sales) ==> row in r by {
        forall row | InJoin(row, products, sales) ensures row in r {
          var p, s :| p in products && s in sales && p.jan == s.jan && row == Joined(p, s);
          if p != products[0] {
            assert p in products[1..];
          }
        }
      }
      r
  }

  /** The order-list row projected from a merged row and its recommendation. */
  function Project(row: Row, recommended: int): OrderLine {
    OrderLine(row.jan, row.maker, row.name, row.quantitySold, row.orderLot, recommended)
  }

  /** Column `推奨発注数`: the rule applied to every row. */
  function RecommendedColumn(rows: seq<Row>): (col: seq<int>)
    ensures |col| == |rows|
    ensures forall i :: 0 <= i < |rows| ==> col[i] == RecommendedOrder(rows[i])
  {
    seq(|rows|, i requires 0 <= i < |rows| => RecommendedOrder(rows[i]))
  }

  /** Column `発注必要`: the elementwise comparison `推奨発注数 > 0`. */
  function NeededColumn(recommended: seq<int>): (col: seq<bool>)
    ensures |col| == |recommended|
    ensures forall i :: 0 <= i < |recommended| ==> col[i] == (recommended[i] > 0)
  {
    seq(|recommended|, i requires 0 <= i < |recommended| => recommended[i] > 0)
  }

  /** Number of entries of the mask that are true. */
  function CountTrue(mask: seq<bool>): nat {
    if mask == [] then 0 else (if mask[0] then 1 else 0) + CountTrue(mask[1..])
  }

  /**
   * `df[mask][[columns]]`: the rows whose mask entry is true, in their order,
   * projected to the order-list columns.
   */
  function Select(rows: seq<Row>, recommended: seq<int>, mask: seq<bool>): (r: seq<OrderLine>)
    requires |recommended| == |rows| && |mask| == |rows|
    ensures |r| == CountTrue(mask)
    ensures forall line :: line in r <==>
      exists i :: 0 <= i < |rows| && mask[i] && line == Project(rows[i], recommended[i])
    decreases |rows|
  {
    if rows == [] then []
    else
      var tail := Select(rows[1..], recommended[1..], mask[1..]);
      var r := (if mask[0] then [Project(rows[0], recommended[0])] else []) + tail;
      assert forall i :: 1 <= i < |rows| ==>
        rows[1..][i - 1] == rows[i] && recommended[1..][i - 1] == recommended[i] && mask[1..][i - 1] == mask[i];
      assert forall line :: line in tail ==>
        exists i :: 0 <= i < |rows| && mask[i] && line == Project(rows[i], recommended[i]) by {
        forall line | line in tail
          ensures exists i :: 0 <= i < |rows| && mask[i] && line == Project(rows[i], recommended[i])
        {
          var j :| 0 <= j < |rows| - 1 && mask[1..][j] && line == Project(rows[1..][j], recommended[1..][j]);
          assert mask[j + 1] && line == Project(rows[j + 1], recommended[j + 1]);
        }
      }
      r
  }

  /**
   * The merged frame `df`: its rows and the two columns the page adds to it in
   * place. An added column is empty until it is assigned.
   */
  class Frame {
    var rows: seq<Row>
    var recommended: seq<int>   // column 推奨発注数
    var orderNeeded: seq<bool>  // column 発注必要

    /** A new frame holding the inner merge of the two tables, before any column is added. */
    constructor Merge(products: seq<Product>, sales: seq<Sale>)
      ensures rows == InnerJoin(products, sales)
      ensures recommended == [] && orderNeeded == []
    {
      rows := InnerJoin(products, sales);
      recommended := [];
      orderNeeded := [];
    }

    /** Adds the recommendation column by applying the rule to each row in turn. */
    method AssignRecommended()
      modifies this
      ensures rows == old(rows) && orderNeeded == old(orderNeeded)
      ensures recommended == RecommendedColumn(rows)
    {
      var col: seq<int> := [];
      var i := 0;
      while i < |rows|
        invariant 0 <= i <= |rows|
        invariant |col| == i
        invariant forall k :: 0 <= k < i ==> col[k] == RecommendedOrder(rows[k])
      {
        col := col + [RecommendedOrder(rows[i])];
        i := i + 1;
      }
      recommended := col;
    }

    /** Adds the order-needed column: whether each row's recommendation is positive. */
    method AssignOrderNeeded()
      requires |recommended| == |rows|
      modifies this
      ensures rows == old(rows) && recommended == old(recommended)
      ensures orderNeeded == NeededColumn(recommended)
    {
      orderNeeded := NeededColumn(recommended);
    }
  }

  /** The order list the page shows and offers for download, as a function of the two tables. */
  function OrderList(products: seq<Product>, sales: seq<Sale>): (r: seq<OrderLine>)
    ensures forall line :: line in r ==> line.recommended > 0
  {
    var df := InnerJoin(products, sales);
    var recommended := RecommendedColumn(df);
    Select(df, recommended, NeededColumn(recommended))
  }

  /** The page's table step: merge, add both columns in place, then filter and project. */
  method RunOrderCheck(products: seq<Product>, sales: seq<Sale>) returns (orderList: seq<OrderLine>)
    ensures orderList == OrderList(products, sales)
  {
    var df := new Frame.Merge(products, sales);
    df.AssignRecommended();
    df.AssignOrderNeeded();
    orderList := Select(df.rows, df.recommended, df.orderNeeded);
  }

  /** Reference for the order list: the merged rows with a positive recommendation, kept in order. */
  function KeepPositive(rows: seq<Row>): seq<OrderLine> {
    if rows == [] then []
    else
      var rec := RecommendedOrder(rows[0]);
      (if rec > 0 then [Project(rows[0], rec)] else []) + KeepPositive(rows[1..])
  }

  /** The column-and-mask pipeline keeps exactly the rows with a positive recommendation, in order. */
  lemma {:induction false} SelectIsKeepPositive(rows: seq<Row>)
    ensures Select(rows, RecommendedColumn(rows), NeededColumn(RecommendedColumn(rows))) == KeepPositive(rows)
  {
    if rows != [] {
      SelectIsKeepPositive(rows[1..]);
      var rec := RecommendedColumn(rows);
      assert rec[1..] == RecommendedColumn(rows[1..]);
      assert NeededColumn(rec)[1..] == NeededColumn(rec[1..]);
    }
  }

  lemma OrderListIsKeepPositive(products: seq<Product>, sales: seq<Sale>)
    ensures OrderList(products, sales) == KeepPositive(InnerJoin(products, sales))
  {
    SelectIsKeepPositive(InnerJoin(products, sales));
  }

  lemma {:induction false} KeepPositiveContents(rows: seq<Row>)
    ensures forall line :: line in KeepPositive(rows) <==>
      exists row :: row in rows && RecommendedOrder(row) > 0 && line == Project(row, RecommendedOrder(row))
  {
    if rows != [] {
      KeepPositiveContents(rows[1..]);
      forall row | row in rows
        ensures row == rows[0] || row in rows[1..]
      {
      }
    }
  }

  /**
   * A line is in the order list exactly when it projects the merge of a
   * product and a sale sharing a JAN code whose recommendation is positive.
   */
  lemma OrderListContents(products: seq<Product>, sales: seq<Sale>, line: OrderLine)
    ensures line in OrderList(products, sales) <==>
      exists p, s :: p in products && s in sales && p.jan == s.jan &&
        RecommendedOrder(Joined(p, s)) > 0 && line == Project(Joined(p, s), RecommendedOrder(Joined(p, s)))
  {
    OrderListIsKeepPositive(products, sales);
    KeepPositiveContents(InnerJoin(products, sales));
  }

  /** Every JAN code in the order list occurs in both the product master and the sales results. */
  lemma OrderListJansInBothTables(products: seq<Product>, sales: seq<Sale>, line: OrderLine)
    requires line in OrderList(products, sales)
    ensures exists p :: p in products && p.jan == line.jan
    ensures exists s :: s in sales && s.jan == line.jan
  {
    OrderListContents(products, sales, line);
    var p, s :| p in products && s in sales && p.jan == s.jan &&
      RecommendedOrder(Joined(p, s)) > 0 && line == Project(Joined(p, s), RecommendedOrder(Joined(p, s)));
    assert line.jan == Joined(p, s).jan == p.jan;
  }

  /**
   * Every line of the order list carries a positive quantity sold, a usable
   * lot, and a recommendation that is the least multiple of that lot strictly
   * above the quantity sold.
   */
  lemma OrderListLinesAreLotMultiples(products: seq<Product>, sales: seq<Sale>, line: OrderLine)
    requires line in OrderList(products, sales)
    ensures line.quantitySold > 0 && UsableLot(line.orderLot)
    ensures line.recommended % line.orderLot.value == 0
    ensures line.quantitySold < line.recommended <= line.quantitySold + line.orderLot.value
    ensures forall k :: k * line.orderLot.value > line.quantitySold ==> line.recommended <= k * line.orderLot.value
  {
    OrderListContents(products, sales, line);
    var p, s :| p in products && s in sales && p.jan == s.jan &&
      RecommendedOrder(Joined(p, s)) > 0 && line == Project(Joined(p, s), RecommendedOrder(Joined(p, s)));
    var row := Joined(p, s);
    RecommendedIsLotMultiple(row);
    RecommendedWithinOneLot(row);
    forall k | k * line.orderLot.value > line.quantitySold
      ensures line.recommended <= k * line.orderLot.value
    {
      RecommendedIsLeastMultipleAbove(row, k);
    }
  }

  lemma {:induction false} InnerJoinNoSales(products: seq<Product>)
    ensures InnerJoin(products, []) == []
  {
    if products != [] {
      InnerJoinNoSales(products[1..]);
    }
  }

  /** With an empty product master or empty sales results the order list is empty. */
  lemma EmptyTableGivesEmptyList(products: seq<Product>, sales: seq<Sale>)
    requires products == [] || sales == []
    ensures OrderList(products, sales) == []
  {
    if sales == [] {
      InnerJoinNoSales(products);
    }
  }

  lemma {:induction false} InnerJoinAppend(ps: seq<Product>, qs: seq<Product>, sales: seq<Sale>)
    ensures InnerJoin(ps + qs, sales) == InnerJoin(ps, sales) + InnerJoin(qs, sales)
  {
    if ps == [] {
      assert ps + qs == qs;
    } else {
      InnerJoinAppend(ps[1..], qs, sales);
      assert (ps + qs)[1..] == ps[1..] + qs;
    }
  }

  lemma {:induction false} KeepPositiveAppend(a: seq<Row>, b: seq<Row>)
    ensures KeepPositive(a + b) == KeepPositive(a) + KeepPositive(b)
  {
    if a == [] {
      assert a + b == b;
    } else {
      KeepPositiveAppend(a[1..], b);
      assert (a + b)[1..] == a[1..] + b;
    }
  }

  /** The order list follows the order of the product master: splitting the master splits the list. */
  lemma OrderListFollowsProductOrder(ps: seq<Product>, qs: seq<Product>, sales: seq<Sale>)
    ensures OrderList(ps + qs, sales) == OrderList(ps, sales) + OrderList(qs, sales)
  {
    OrderListIsKeepPositive(ps + qs, sales);
    OrderListIsKeepPositive(ps, sales);
    OrderListIsKeepPositive(qs, sales);
    InnerJoinAppend(ps, qs, sales);
    KeepPositiveAppend(InnerJoin(ps, sales), InnerJoin(qs, sales));
  }

  /** The `発注必要` flag of a merged row is set exactly when it sold something and has a usable lot. */
  lemma OrderNeededIffSoldWithUsableLot(rows: seq<Row>, i: int)
    requires 0 <= i < |rows|
    ensures NeededColumn(RecommendedColumn(rows))[i] <==> rows[i].quantitySold > 0 && UsableLot(rows[i].orderLot)
  {
  }

  /** A single sale contributes one merged row when its JAN code matches, and none otherwise. */
  lemma RowsForOneSale(p: Product, s: Sale)
    ensures RowsFor(p, [s]) == if s.jan == p.jan then [Joined(p, s)] else []
  {
  }

  /** The merged rows of a product over concatenated sales are the concatenation, so every matching sale counts once, in order. */
  lemma {:induction false} RowsForAppend(p: Product, a: seq<Sale>, b: seq<Sale>)
    ensures RowsFor(p, a + b) == RowsFor(p, a) + RowsFor(p, b)
  {
    if a == [] {
      assert a + b == b;
    } else {
      RowsForAppend(p, a[1..], b);
      assert (a + b)[0] == a[0] && (a + b)[1..] == a[1..] + b;
      var head := if a[0].jan == p.jan then [Joined(p, a[0])] else [];
      calc {
        RowsFor(p, a + b);
        head + RowsFor(p, a[1..] + b);
        head + (RowsFor(p, a[1..]) + RowsFor(p, b));
        (head + RowsFor(p, a[1..])) + RowsFor(p, b);
        RowsFor(p, a) + RowsFor(p, b);
      }
    }
  }

  /** Merging a one-product master gives that product's rows. */
  lemma InnerJoinOneProduct(p: Product, sales: seq<Sale>)
    ensures InnerJoin([p], sales) == RowsFor(p, sales)
  {
  }

  /** Two sales rows with the product's JAN code give two merged rows: the merge does not drop duplicates. */
  lemma DuplicateSalesGiveDuplicateRows(p: Product, s: Sale)
    requires s.jan == p.jan
    ensures InnerJoin([p], [s, s]) == [Joined(p, s), Joined(p, s)]
  {
    InnerJoinOneProduct(p, [s, s]);
    RowsForAppend(p, [s], [s]);
    assert [s] + [s] == [s, s];
    RowsForOneSale(p, s);
  }

  /** Each such duplicate reaches the order list as a line of its own. */
  lemma DuplicateSalesGiveDuplicateLines(p: Product, s: Sale)
    requires s.jan == p.jan && RecommendedOrder(Joined(p, s)) > 0
    ensures OrderList([p], [s, s]) ==
      [Project(Joined(p, s), RecommendedOrder(Joined(p, s))), Project(Joined(p, s), RecommendedOrder(Joined(p, s)))]
  {
    DuplicateSalesGiveDuplicateRows(p, s);
    OrderListIsKeepPositive([p], [s, s]);
    var row := Joined(p, s);
    KeepPositiveAppend([row], [row]);
    assert [row] + [row] == [row, row];
    assert KeepPositive([row]) == [Project(row, RecommendedOrder(row))] by {
      assert [row][1..] == [];
    }
  }
}
