/** The dashboard (src/components/Home.jsx, `fetchStats`): today's sales and takings,
    money collected, profit from the sale-item snapshots, stores visited today and
    the low-stock count. Today's date is a parameter. */
module Dashboard {
  import opened Seqs
  import opened Text
  import opened Records
  import opened Inventory

  /** The sales whose timestamp string starts with today's `YYYY-MM-DD`. */
  function TodaySales(sales: seq<Sale>, today: string): (r: seq<Sale>)
    ensures forall s :: s in r <==> s in sales && StartsWith(s.createdAt, today)
  {
    Filter(sales, (s: Sale) => StartsWith(s.createdAt, today))
  }

  /** An item's profit, from the prices recorded on the item at the time of sale. */
  function ItemProfit(i: SaleItem): (r: int)
    ensures 0 <= i.quantity && i.purchasePriceAtSale <= i.priceAtSale ==> r >= 0
  {
    (i.priceAtSale - i.purchasePriceAtSale) * i.quantity
  }

  /** `new Map(allSales.map(s => [s.id, s.created_at]))`: sale id to timestamp, a later
      entry overwriting an earlier one with the same id. */
  function SaleDates(sales: seq<Sale>): (m: map<nat, string>)
    ensures forall id :: id in m <==> exists i :: 0 <= i < |sales| && sales[i].id == id
  {
    if |sales| == 0 then map[]
    else
      var init := sales[..|sales| - 1];
      var last := sales[|sales| - 1];
      assert forall i :: 0 <= i < |init| ==> init[i] == sales[i];
      SaleDates(init)[last.id := last.createdAt]
  }

  /** With distinct ids, the map gives each sale its own timestamp. */
  lemma {:induction false} SaleDatesLookup(sales: seq<Sale>, k: nat)
    requires Distinct(sales, SaleId) && k < |sales|
    ensures SaleDates(sales)[sales[k].id] == sales[k].createdAt
  {
    var n := |sales| - 1;
    var init := sales[..n];
    if k < n {
      assert init[k] == sales[k];
      assert Distinct(init, SaleId) by {
        forall i, j | 0 <= i < j < |init| ensures init[i].id != init[j].id {
          assert init[i] == sales[i] && init[j] == sales[j];
        }
      }
      SaleDatesLookup(init, k);
    }
  }

  /** The item counts toward today's profit: its sale is in the map, the date is
      not empty, and it starts with today's prefix. */
  predicate SoldToday(item: SaleItem, dates: map<nat, string>, today: string)
  {
    item.saleId in dates && |dates[item.saleId]| > 0 && StartsWith(dates[item.saleId], today)
  }

  function TodayItems(items: seq<SaleItem>, dates: map<nat, string>, today: string): (r: seq<SaleItem>)
    ensures forall i :: i in r <==> i in items && SoldToday(i, dates, today)
  {
    Filter(items, (i: SaleItem) => SoldToday(i, dates, today))
  }

  function EarlierItems(items: seq<SaleItem>, dates: map<nat, string>, today: string): (r: seq<SaleItem>)
    ensures forall i :: i in r <==> i in items && !SoldToday(i, dates, today)
  {
    Filter(items, (i: SaleItem) => !SoldToday(i, dates, today))
  }

  lemma TodayItemsAppend(a: seq<SaleItem>, b: seq<SaleItem>, dates: map<nat, string>, today: string)
    ensures TodayItems(a + b, dates, today) == TodayItems(a, dates, today) + TodayItems(b, dates, today)
  {
    FilterAppend(a, b, (i: SaleItem) => SoldToday(i, dates, today));
  }

  /** The `forEach` over all sale items, accumulating the total profit and today's. */
  method ComputeProfit(items: seq<SaleItem>, dates: map<nat, string>, today: string)
    returns (totalProfit: int, profitToday: int)
    ensures totalProfit == Sum(items, ItemProfit)
    ensures profitToday == Sum(TodayItems(items, dates, today), ItemProfit)
  {
    totalProfit, profitToday := 0, 0;
    for k := 0 to |items|
      invariant totalProfit == Sum(items[..k], ItemProfit)
      invariant profitToday == Sum(TodayItems(items[..k], dates, today), ItemProfit)
    {
      var item := items[k];
      var profitOnItem := (item.priceAtSale - item.purchasePriceAtSale) * item.quantity;
      totalProfit := totalProfit + profitOnItem;
      if item.saleId in dates {
        var saleDate := dates[item.saleId];
        if |saleDate| > 0 && StartsWith(saleDate, today) {
          profitToday := profitToday + profitOnItem;
        }
      }
      assert items[..k + 1] == items[..k] + [item];
      SumAppend(items[..k], [item], ItemProfit);
      TodayItemsAppend(items[..k], [item], dates, today);
      SumAppend(TodayItems(items[..k], dates, today), TodayItems([item], dates, today), ItemProfit);
    }
    assert items[..|items|] == items;
  }

  /** Total profit is today's profit plus the profit of every other item, including
      items whose sale no longer exists. */
  lemma ProfitSplit(items: seq<SaleItem>, dates: map<nat, string>, today: string)
    ensures Sum(items, ItemProfit) ==
            Sum(TodayItems(items, dates, today), ItemProfit) + Sum(EarlierItems(items, dates, today), ItemProfit)
  {
    var g := (i: SaleItem) => if SoldToday(i, dates, today) then ItemProfit(i) else 0;
    var h := (i: SaleItem) => if !SoldToday(i, dates, today) then ItemProfit(i) else 0;
    SumFilter(items, (i: SaleItem) => SoldToday(i, dates, today), ItemProfit, g);
    SumFilter(items, (i: SaleItem) => !SoldToday(i, dates, today), ItemProfit, h);
    SumSplit(items, ItemProfit, g, h);
  }

  /** With sale ids distinct and a non-empty date prefix, an item counts toward today's
      profit exactly when its parent sale is one of today's sales; an item whose sale
      is missing never does. */
  lemma SoldTodayIffSaleToday(sales: seq<Sale>, item: SaleItem, today: string)
    requires Distinct(sales, SaleId) && |today| > 0
    ensures SoldToday(item, SaleDates(sales), today) <==>
            exists s :: s in TodaySales(sales, today) && s.id == item.saleId
  {
    var m := SaleDates(sales);
    if SoldToday(item, m, today) {
      var i :| 0 <= i < |sales| && sales[i].id == item.saleId;
      SaleDatesLookup(sales, i);
      assert sales[i] in TodaySales(sales, today);
    }
    if exists s :: s in TodaySales(sales, today) && s.id == item.saleId {
      var s :| s in TodaySales(sales, today) && s.id == item.saleId;
      var i :| 0 <= i < |sales| && sales[i] == s;
      SaleDatesLookup(sales, i);
    }
  }

  /** With nothing paid back out (every amount paid non-negative), what was collected
      today is at most what was collected in total. */
  lemma CollectedTodayWithinTotal(sales: seq<Sale>, today: string)
    requires forall i :: 0 <= i < |sales| ==> sales[i].amountPaid >= 0
    ensures Sum(TodaySales(sales, today), PaidOf) <= Sum(sales, PaidOf)
  {
    var g := (s: Sale) => if StartsWith(s.createdAt, today) then PaidOf(s) else 0;
    SumFilter(sales, (s: Sale) => StartsWith(s.createdAt, today), PaidOf, g);
    SumMono(sales, g, PaidOf);
  }

  /** `new Set(todaySales.map(s => s.client_id))`: the stores sold to, each once. */
  function ClientIds(sales: seq<Sale>): (ids: set<nat>)
    ensures forall c :: c in ids <==> exists i :: 0 <= i < |sales| && sales[i].clientId == c
    ensures |ids| <= |sales|
  {
    if |sales| == 0 then {}
    else
      {sales[0].clientId} + ClientIds(sales[1..])
  }

  datatype Stats = Stats(totalSalesToday: int, moneyCollectedToday: int, totalMoneyCollected: int,
                         profitToday: int, totalProfit: int, storesVisited: nat, lowStock: nat)

  /** `fetchStats` over the three tables as read. */
  method FetchStats(sales: seq<Sale>, items: seq<SaleItem>, products: seq<Product>, today: string)
    returns (st: Stats)
    ensures st.totalSalesToday == Sum(TodaySales(sales, today), TotalOf)
    ensures st.moneyCollectedToday == Sum(TodaySales(sales, today), PaidOf)
    ensures st.totalMoneyCollected == Sum(sales, PaidOf)
    ensures st.totalProfit == Sum(items, ItemProfit)
    ensures st.profitToday == Sum(TodayItems(items, SaleDates(sales), today), ItemProfit)
    ensures st.storesVisited == |ClientIds(TodaySales(sales, today))|
    ensures st.storesVisited <= |TodaySales(sales, today)|
    ensures st.lowStock == |LowStockProducts(products)|
    ensures st.lowStock <= |products|
  {
    var todaySales := TodaySales(sales, today);
    var salesToday := Sum(todaySales, TotalOf);
    var collectedToday := Sum(todaySales, PaidOf);
    var totalCollected := Sum(sales, PaidOf);
    var totalProfit, profitToday := ComputeProfit(items, SaleDates(sales), today);
    var uniqueStores := |ClientIds(todaySales)|;
    var lowStockCount := |LowStockProducts(products)|;
    st := Stats(salesToday, collectedToday, totalCollected, profitToday, totalProfit, uniqueStores, lowStockCount);
  }
}
