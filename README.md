# Order check: reorder-quantity rule and order list

A Dafny model of the order check page (`order_check.py`) of a small
order-management dashboard. The page joins the product master (`products`)
with the sales results (`sales`) on the JAN code. It computes a recommended
order quantity (`推奨発注数`) for every merged row and flags the rows that need
an order (`発注必要`). It then shows the flagged rows as an order list of six
columns: `jan, maker, name, quantity_sold, order_lot, 推奨発注数`.

The rule for one row: if nothing was sold, or the order lot is missing, NaN
or not positive, the recommendation is 0. Otherwise it is
`((quantity_sold // lot) + 1) * lot`. That is the least multiple of the lot
strictly above the quantity sold. It is not a ceiling: a quantity sold that is
already an exact multiple of the lot gets one more lot.

Files:

- `wrappers.dfy` — `Option`, used for a lot cell that may be missing or NaN.
- `order_rule.dfy` — module `OrderRule`: the merged `Row`, the rule
  `RecommendedOrder`, a lot-by-lot reference count `LotsAbove`, and the lemmas
  about the rule.
- `order_table.dfy` — module `OrderTable`: the two input tables, the inner
  merge, the merged frame `df` as a class `Frame` whose two added columns are
  assigned in place, the boolean-mask selection with projection, the whole
  step as the function `OrderList` and the method `RunOrderCheck`, and the
  lemmas about the order list.

The source does not show the table schemas. The model takes the product
master to hold `jan, maker, name, order_lot` and the sales results to hold
`jan, quantity_sold`, which are the columns the page reads.

The merge gives one merged row for every pair of a product and a sale with
the same JAN code, so repeated sales rows of one code give repeated merged
rows and repeated order-list lines. The model keeps the products in their own
order, which pandas documents for an inner merge (it keeps the order of the
left keys). Within one product it keeps the matching sales in their own order;
that is how pandas behaves, but pandas does not document it.

## Model

| member | source | states |
|---|---|---|
| `OrderRule.RecommendedOrder` | order_check.py:39-45 | The recommendation is never negative and is positive exactly when the quantity sold is positive and the lot is present and positive. So it is 0 when nothing was sold, whatever the lot, and 0 when the lot is missing, NaN or not positive. |
| `OrderRule.RecommendedIsLotMultiple` | order_check.py:44 | A positive recommendation comes with a usable lot and is an exact multiple of it. |
| `OrderRule.RecommendedWithinOneLot` | order_check.py:44 | A positive recommendation is strictly greater than the quantity sold and at most the quantity sold plus one lot. |
| `OrderRule.RecommendedIsLeastMultipleAbove` | order_check.py:44 | With a positive quantity sold and a usable lot, every multiple of the lot strictly above the quantity sold is at least the recommendation. |
| `OrderRule.ExactMultipleGetsExtraLot` | order_check.py:44 | A quantity sold that is an exact multiple of the lot gets exactly one extra lot, so the rule is not a ceiling. |
| `OrderRule.RecommendedMatchesLotCount` | order_check.py:44 | The rule equals the independent count of lots needed to pass the quantity sold, one lot at a time, times the lot. |
| `OrderTable.RowsFor` | order_check.py:36 | The merged rows of one product are exactly its pairings with the sales rows of the same JAN code, and there are at most as many as sales rows. Count and order are stated by `RowsForOneSale` and `RowsForAppend`. |
| `OrderTable.InnerJoin` | order_check.py:36 | A row is in the inner merge exactly when it is the pairing of a product and a sale with the same JAN code. Count and order are stated by `InnerJoinAppend`, `InnerJoinOneProduct` and `RowsForAppend`. |
| `OrderTable.InnerJoinAppend` | order_check.py:36 | The merge of a concatenated product master is the concatenation of the merges, so merged rows follow the product order. |
| `OrderTable.RowsForOneSale` | order_check.py:36 | One sale gives one merged row when its JAN code matches the product's, and none otherwise. |
| `OrderTable.RowsForAppend` | order_check.py:36 | The merged rows of a product over concatenated sales are the concatenation of the two results. With `RowsForOneSale` this fixes one merged row per matching sale, in the order of the sales. |
| `OrderTable.InnerJoinOneProduct` | order_check.py:36 | The merge of a one-product master is that product's merged rows. With `InnerJoinAppend` this fixes the whole merge, count and order included. |
| `OrderTable.DuplicateSalesGiveDuplicateRows` | order_check.py:36 | Two identical sales rows with the product's JAN code give two identical merged rows: duplicates are kept. |
| `OrderTable.DuplicateSalesGiveDuplicateLines` | order_check.py:36-53 | Those two merged rows reach the order list as two lines when the recommendation is positive. |
| `OrderTable.InnerJoinNoSales` | order_check.py:36 | With no sales rows the merge is empty. |
| `OrderTable.RecommendedColumn` | order_check.py:47 | The `推奨発注数` column has one entry per merged row, and entry i is the rule applied to row i. |
| `OrderTable.NeededColumn` | order_check.py:48 | The `発注必要` column has one entry per recommendation, true exactly when that recommendation is positive. |
| `OrderTable.OrderNeededIffSoldWithUsableLot` | order_check.py:48 | A merged row's `発注必要` flag is true exactly when its quantity sold is positive and its lot is present and positive. |
| `OrderTable.Select` | order_check.py:51-53 | The selection holds one line per true mask entry, and a line is in it exactly when it projects a row whose mask entry is true onto the six columns. |
| `OrderTable.Frame.Merge` | order_check.py:36 | The new frame holds the inner merge of the two tables and no added columns yet. |
| `OrderTable.Frame.AssignRecommended` | order_check.py:47 | Assigns the `推奨発注数` column, the rule applied row by row, and leaves the rows and the other column unchanged. |
| `OrderTable.Frame.AssignOrderNeeded` | order_check.py:48 | Assigns the `発注必要` column from the `推奨発注数` column and leaves the rows and that column unchanged. |
| `OrderTable.OrderList` | order_check.py:36-53 | The order list (`order_df`) as a function of the two tables. Its own contract states only that every line's recommendation is positive. Its other properties are stated by `OrderListIsKeepPositive`, `OrderListContents`, `OrderListJansInBothTables`, `OrderListLinesAreLotMultiples`, `OrderListFollowsProductOrder` and `EmptyTableGivesEmptyList`, and `RunOrderCheck` is proved equal to it. |
| `OrderTable.RunOrderCheck` | order_check.py:36-53 | Merging the tables, adding both columns in place and then filtering and projecting yields exactly `OrderList` of the two tables. |
| `OrderTable.SelectIsKeepPositive` | order_check.py:47-53 | Selecting with the `発注必要` mask built from the `推奨発注数` column equals keeping the rows with a positive recommendation, in their order. |
| `OrderTable.OrderListIsKeepPositive` | order_check.py:36-53 | The order list is exactly the merged rows with a positive recommendation, in merge order, projected to the six columns. |
| `OrderTable.KeepPositiveContents` | order_check.py:51-53 | A line is kept exactly when it projects a row with a positive recommendation, carrying that recommendation. |
| `OrderTable.KeepPositiveAppend` | order_check.py:51-53 | Keeping rows distributes over concatenation, so the filter preserves row order. |
| `OrderTable.OrderListContents` | order_check.py:36-53 | A line is in the order list exactly when it projects the merge of a product and a sale with the same JAN code whose recommendation is positive. |
| `OrderTable.OrderListJansInBothTables` | order_check.py:36-53 | The JAN code of every order-list line occurs in both the product master and the sales results. |
| `OrderTable.OrderListLinesAreLotMultiples` | order_check.py:39-53 | Every order-list line has a positive quantity sold and a usable lot. Its recommendation is a multiple of that lot, lies in (quantity sold, quantity sold + lot], and is the least such multiple. |
| `OrderTable.OrderListFollowsProductOrder` | order_check.py:36-53 | The order list of a concatenated product master is the concatenation of the order lists, so lines follow the product order. |
| `OrderTable.EmptyTableGivesEmptyList` | order_check.py:31-36 | With an empty product master or empty sales results the order list is empty. The page stops at once in that case, and there is nothing to list either way. |

## Left out

- Page setup, titles, the warning, `st.stop`, `st.dataframe` and the download button (order_check.py:13-14, 31-33, 55-66): user interface. `EmptyTableGivesEmptyList` states only that no order list would exist.
- Fetching `products` and `sales` over the hosted database's REST interface, the secrets and `@st.cache_data` (order_check.py:5-29): network I/O and process-wide caching. The two tables are parameters.
- The CSV encoding with a UTF-8 byte-order mark (order_check.py:60): serialisation done inside pandas.
- `main.py`, `kanri_kakunin.py` and `kanri_upload.py`: data fetching, debug output and CSV upload, all I/O.
- Floating point: pandas turns a lot column holding NaN into floats, so the recommendation becomes a float. The model uses integers throughout, with `None` for a NaN or missing lot.
- `OrderRule.RecommendedOrder`: does not model a NaN `quantity_sold`. In Python `NaN > 0` is false, so such a row gets 0; the model takes the quantity sold as an integer.
- `row.get("order_lot", 0)` on a frame with no `order_lot` column gives 0, which the rule treats like a missing lot. The model writes both as `None`. The projection (order_check.py:51-53) would then fail with a missing-column error, which is not modelled.
- Column-name clashes in the merge (pandas would suffix columns both tables share besides `jan`) and type mismatches of the `jan` key are not modelled.
- `OrderTable.InnerJoin`: keeps the left rows in order, as pandas documents, and the matching sales in their own order, as pandas behaves. Some older pandas versions grouped left rows with equal keys together instead; that order is not modelled.
