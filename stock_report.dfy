/** The printable stock report (src/components/StockReport.jsx): one row per product
    with its stock value, the number of products and the total stock value. */
module StockReport {
  import opened Seqs
  import opened Records

  datatype StockRow = StockRow(productId: nat, name: string, quantity: int, unitPrice: int, value: int)

  datatype Report = Report(rows: seq<StockRow>, totalItems: nat, totalValue: int)

  /** What a product's stock is worth at its selling price. */
  function StockValue(p: Product): int { p.quantity * p.unitPrice }

  function RowFor(p: Product): StockRow
  {
    StockRow(p.id, p.name, p.quantity, p.unitPrice, StockValue(p))
  }

  function RowValue(r: StockRow): int { r.value }

  function Rows(products: seq<Product>): (rows: seq<StockRow>)
    ensures |rows| == |products|
  {
    seq(|products|, k requires 0 <= k < |products| => RowFor(products[k]))
  }

  /** The report's total, taken over the products, is the sum of the value column. */
  lemma {:induction false} RowsTotal(products: seq<Product>)
    ensures Sum(Rows(products), RowValue) == Sum(products, StockValue)
  {
    if |products| > 0 {
      assert Rows(products)[1..] == Rows(products[1..]);
      RowsTotal(products[1..]);
    }
  }

  /** The report for the list it is given: every product once, in the given order,
      with value quantity × unit price; the item count is the number of products
      and the total value is the sum of the rows' values (0 for no products). */
  function BuildReport(products: seq<Product>): (r: Report)
    ensures |r.rows| == |products| && r.totalItems == |products|
    ensures forall k :: 0 <= k < |products| ==>
      && r.rows[k].productId == products[k].id
      && r.rows[k].name == products[k].name
      && r.rows[k].quantity == products[k].quantity
      && r.rows[k].unitPrice == products[k].unitPrice
      && r.rows[k].value == products[k].quantity * products[k].unitPrice
    ensures r.totalValue == Sum(r.rows, RowValue)
    ensures |products| == 0 ==> r.totalValue == 0
  {
    RowsTotal(products);
    Report(Rows(products), |products|, Sum(products, StockValue))
  }
}
