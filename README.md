# Truck sales: a verified model of the point-of-sale core

This project models the core of a point-of-sale and inventory app for a delivery truck. The app keeps four tables in the browser's local database (IndexedDB): products, client stores, sales and sale items. The driver builds a cart on the sales screen and records the sale. The transaction does four things:

- writes the sale;
- writes one item per cart line, with the price and the cost at the time of sale;
- lowers each product's stock;
- either commits everything or nothing.

Later, payments are recorded against a sale on the stores screen. That screen derives each store's outstanding balance from the sales table and rebuilds receipts from the sale items. The dashboard shows today's sales, and money collected and profit both for today and in total. The inventory screen edits products, and the stock report values the stock.

One module per source file:

| module | file | source |
|---|---|---|
| `Records` | records.dfy | the table records of `src/lib/db.js` |
| `Cart` | cart.dfy | the pure cart helpers of `SalesInterface.jsx`, and what committing a cart does to the tables |
| `SalesInterface` | checkout.dfy | the sales screen as a class: its lists, cart, selected store, payment modal and `finalizeSale` |
| `Store` | ledger.dfy | the database as a class `Ledger`: tables in key order, `++id` key generators, and the writes the screens issue |
| `Accounts` | accounts.dfy | `Clients.jsx`: balances, payments, account history, the Pay button, receipts, the store list |
| `Inventory` | inventory.dfy | `Inventory.jsx`: the product form, the local list copies, low stock |
| `StockReport` | stock_report.dfy | `StockReport.jsx` |
| `Dashboard` | dashboard.dfy | `Home.jsx`'s `fetchStats` |
| `Seqs`, `Text`, `Wrappers` | seqs.dfy, text.dfy, wrappers.dfy | filter, sum and key lookup over sequences; string prefixes and the sort used for `orderBy`/`sortBy`; `Option` and `Result` |

Conventions:

- Money is an integer number of minor units.
- A numeric input is `Option<int>`, where `None` stands for JavaScript's `NaN`.
- A table is a sequence in primary-key order. Its generator hands out increasing keys.
- The clock is a parameter: `now` for `created_at`, and `today` for the date prefix the dashboard compares against.

The sale transaction is modelled with staged writes. `Store.RecordLines` builds the new items and the decremented products on a working copy. Only `Store.Ledger.Commit` writes them back. An abort returns before the commit, so every table and every key generator stays as it was. That is the all-or-nothing behaviour the transaction provides.

Two behaviours of the code are easy to misread, and the model keeps them as written:

- **Payments.** `handleRecordPayment` accepts any number that parses, including zero, negative amounts and overpayments. It applies no sign check and no cap.
- **Stock at commit.** `finalizeSale` does not re-check stock at commit. It re-reads each product and subtracts the line's quantity. The only failure it can meet there is a product that is gone. The model therefore proves a conditional guarantee (`Cart.NoNegativeStock`, `SalesInterface.SalesScreen.Finalize`): a cart that was kept valid against a current product list never drives stock below zero.

## Model

| member | source | states |
|---|---|---|
| Records.OrZero | src/components/SalesInterface.jsx:114 | a numeric input that did not parse counts as 0; a parsed one keeps its value |
| Cart.CartTotal | src/components/SalesInterface.jsx:98 | the total of an empty cart is 0; `Cart.ItemsReconcile` ties it to the recorded items |
| Cart.AvailableProducts | src/components/SalesInterface.jsx:34 | the screen lists exactly the table's products with stock above 0 |
| Cart.CartValidAgainstTable | src/components/SalesInterface.jsx:32-37 | a cart valid against the listed products is valid against the table they were read from |
| Cart.SetLineQty | src/components/SalesInterface.jsx:78 | the `map` gives the product's lines quantity `q`, keeps every other line's quantity, and keeps every line's product record and the cart's length |
| Cart.AddToCart | src/components/SalesInterface.jsx:73-85 | rejected, with the cart unchanged, exactly when the product already has a line and the merged quantity exceeds its stock; a product without a line is appended as `{...product, sale_qty}`; a merge keeps every line's product record |
| Cart.AddToCartEffect | src/components/SalesInterface.jsx:73-85 | an accepted add raises that product's quantity by exactly the amount added and keeps one line per product |
| Cart.ConfirmAddToCart | src/components/SalesInterface.jsx:53-71 | each rejection reason (no product, quantity not a positive number, more than the stock) in its own case, with the cart unchanged; a selected product with 0 < qty <= stock is handed to `addToCart` |
| Cart.ConfirmAddKeepsCartValid | src/components/SalesInterface.jsx:53-71 | adding through the modal keeps the cart invariant: one line per product, and 0 < sale_qty <= stock on every line |
| Cart.Retarget | src/components/SalesInterface.jsx:89-93 | a line edit never changes the line's product |
| Cart.RetargetAll | src/components/SalesInterface.jsx:88-94 | the `map` turns line i into line i's edit and keeps the cart's length |
| Cart.UpdateQty | src/components/SalesInterface.jsx:87-96 | `updateQty` never adds a line; `Cart.UpdateQtyEditsLine`, `Cart.UpdateQtyKeepsOthers`, `Cart.UpdateQtyKeepsOtherLines` and `Cart.UpdateQtyKeepsCartValid` state its effect |
| Cart.RetargetKeepsOtherLines | src/components/SalesInterface.jsx:88-94 | the `map` returns every line of another product unchanged, and each line it returns carries a product record the cart held |
| Cart.UpdateQtyKeepsOtherLines | src/components/SalesInterface.jsx:87-96 | for a valid cart, a line of another product is in the result exactly when it was in the cart, and every kept line, the edited one included, carries a product record the cart held, so prices and costs are never changed |
| Cart.DropEmptyLines | src/components/SalesInterface.jsx:95 | dropping the lines with quantity <= 0 leaves each product's positive quantity and removes the rest |
| Cart.UpdateQtyShape | src/components/SalesInterface.jsx:87-96 | a product with a line in a valid cart is in the list with at least the line's quantity in stock, and `updateQty` is the clamped, stock-checked `map` followed by the `filter` |
| Cart.UpdateQtyWithoutLine | src/components/SalesInterface.jsx:87-96 | in a valid cart, editing a product the cart does not hold changes nothing |
| Cart.UpdateQtyKeepsCartValid | src/components/SalesInterface.jsx:87-96 | `updateQty` keeps the cart invariant |
| Cart.UpdateQtyKeepsOthers | src/components/SalesInterface.jsx:87-96 | `updateQty` leaves every other product's quantity unchanged |
| Cart.UpdateQtyEditsLine | src/components/SalesInterface.jsx:87-96 | the edited product ends at max(0, qty + delta) when that fits the stock, otherwise at its old quantity, and its line is dropped at 0 |
| Cart.SetQuantity | src/components/SalesInterface.jsx:139-141 | `products.update(id, {quantity})` sets the quantity of the records with that key to the new value, leaves every other quantity alone, and keeps the length and all other fields |
| Cart.CommitLine | src/components/SalesInterface.jsx:138-141 | the re-read and stock write for one line changes only quantities, touches no other product's record, and leaves the table as it was when the product is missing |
| Cart.Decrement | src/components/SalesInterface.jsx:127-142 | the stock writes of a whole cart change quantities only |
| Cart.DecrementPerProduct | src/components/SalesInterface.jsx:127-142 | each product ends at its old quantity less the units the cart sells of it |
| Cart.NoNegativeStock | src/components/SalesInterface.jsx:137-141 | with a cart valid against the table, no product with stock >= 0 goes below zero |
| Cart.SetQuantityUnits | src/components/SalesInterface.jsx:139-141 | one quantity write moves the table's unit total by exactly the difference |
| Cart.DecrementDistinct | src/components/SalesInterface.jsx:139-141 | the stock writes keep one record per key |
| Cart.CommitLineUnits | src/components/SalesInterface.jsx:137-141 | one line's stock write takes exactly its quantity off the unit total |
| Cart.AllStockedAt | src/components/SalesInterface.jsx:138-140 | the transaction's commit condition holds exactly when every line's product is found on re-read |
| Cart.DecrementConservesUnits | src/components/SalesInterface.jsx:127-142 | the table's unit total drops by exactly the units the cart sells |
| Cart.CommitAfterDecrement | src/components/SalesInterface.jsx:137-141 | a later line's stock write still takes exactly its quantity off the total |
| Cart.NewItems | src/components/SalesInterface.jsx:127-135 | one item per cart line, each under the sale's key with consecutive fresh item keys, copying the line's product key, sale quantity, unit price and purchase price |
| Cart.ItemFor | src/components/SalesInterface.jsx:129-135 | the `sale_items.add` record for one line: sale key, product key, quantity, price at sale and cost at sale (`Cart.NewItems` states these per line) |
| Cart.ItemsReconcile | src/components/SalesInterface.jsx:98-135 | the recorded items' price times quantity adds up to the cart total the sale was recorded with |
| Cart.NewItemsStep | src/components/SalesInterface.jsx:129-135 | each loop step appends exactly the next line's item |
| Cart.DecrementKeepsKeys | src/components/SalesInterface.jsx:138-141 | a product is found after the earlier stock writes exactly when it was found before them |
| Cart.DecrementKeyedBelow | src/components/SalesInterface.jsx:139-141 | the stock writes keep the products table in key order below its generator |
| Cart.NewItemsKeyed | src/components/SalesInterface.jsx:129-135 | the appended items keep the items table in key order, and the generator moves past them |
| Cart.DecrementPrefix | src/components/SalesInterface.jsx:127-142 | the stock writes for the first i + 1 lines are those for the first i lines followed by line i's write |
| Store.RecordLines | src/components/SalesInterface.jsx:127-142 | the loop completes exactly when every line's product exists; it then yields the decremented table and the items for the cart; otherwise it names a cart product that is missing |
| Store.MissingLine | src/components/SalesInterface.jsx:138-140 | a line whose product is missing makes the commit condition fail |
| Store.StockedStep | src/components/SalesInterface.jsx:138-140 | a found product extends the lines known to commit |
| Store.SaleItemsReconcile | src/components/SalesInterface.jsx:119-135 | after a sale, the items stored under its key are exactly the items it wrote, and they add up to the cart total |
| Store.SaleMovesBalances | src/components/Clients.jsx:48-53 | a new sale raises its own store's balance by what it still owes and leaves every other store's balance unchanged |
| Store.Ledger.constructor | src/lib/db.js:6-11 | empty tables whose `++id` generators start at 1 |
| Store.Ledger.AddProduct | src/components/Inventory.jsx:42 | appends the product under a fresh key, which the generator then moves past; keys stay ordered and nothing else changes |
| Store.Ledger.UpdateProduct | src/components/Inventory.jsx:58-63 | replaces the record with the edited key; an unknown key changes nothing |
| Store.Ledger.DeleteProduct | src/components/Inventory.jsx:74-77 | when confirmed, removes exactly the records with that key; otherwise nothing changes |
| Store.Ledger.AddClient | src/components/Clients.jsx:59 | appends the store under a fresh key; nothing else changes |
| Store.Ledger.DeleteClient | src/components/Clients.jsx:71-74 | when confirmed, removes the store and keeps its sales; otherwise nothing changes |
| Store.Ledger.RecordPayment | src/components/Clients.jsx:82-91 | a payment is applied exactly when the reply parses; the sale's amount paid becomes currentPaid + p; its store's balance drops by p and every other balance stays the same |
| Store.Ledger.Commit | src/components/SalesInterface.jsx:117-144 | writes back the working copy, the sale and its items; the keys stay valid and both generators move past the keys used |
| Store.Ledger.FinalizeSale | src/components/SalesInterface.jsx:110-144 | commits exactly when every line's product exists, recording the sale, its items, each product's new stock, a receipt total equal to the cart total and the store's balance raised by total - paid; otherwise it names the missing product and changes no table and no key generator |
| Accounts.ClientSales | src/components/Clients.jsx:49 | exactly the sales of that store |
| Accounts.CalculateBalance | src/components/Clients.jsx:48-53 | a store's sales total less what was paid on them; `Accounts.BalanceIsSumOfDues` states it sale by sale |
| Accounts.BalanceIsSumOfDues | src/components/Clients.jsx:48-53 | the balance equals the sum of (total - paid) over the store's sales |
| Accounts.NoSalesNoBalance | src/components/Clients.jsx:48-53 | a store without sales owes 0 |
| Accounts.BalanceAfterSale | src/components/Clients.jsx:48-53 | one more sale moves only its own store's balance, by what that sale owes |
| Accounts.SetPaid | src/components/Clients.jsx:91 | `sales.update(saleId, {amount_paid})` gives the keyed sales the new amount paid, keeps every other sale's, and changes no other field |
| Accounts.ClientDueAfterPayment | src/components/Clients.jsx:91 | with unique sale keys, a payment p lowers only its store's sum of dues, by exactly p |
| Accounts.PaymentMovesBalance | src/components/Clients.jsx:82-91 | a payment p on a sale lowers that store's balance by exactly p and leaves the others unchanged |
| Accounts.PaymentMovesEveryBalance | src/components/Clients.jsx:82-91 | the same, for every store and every sale with that key at once |
| Accounts.PaymentAmount | src/components/Clients.jsx:83-87 | a cancelled prompt, empty text or text that is not a number records nothing; any number is recorded as typed |
| Accounts.AccountHistory | src/components/Clients.jsx:114-123 | the store's sales and only those, as a permutation, newest `created_at` first |
| Accounts.PayOffered | src/components/Clients.jsx:212 | the history's Pay button shows on a sale exactly when its total exceeds what was paid on it |
| Accounts.PositiveDueHasOwingSale | src/components/Clients.jsx:212 | a positive sum of dues has a sale of that store on which the Pay button shows |
| Accounts.OwingClientIsOfferedPay | src/components/Clients.jsx:190-216 | a store with a positive balance has a Pay button in its account history |
| Accounts.ItemsOfSale | src/components/Clients.jsx:135-138 | exactly the items stored under that sale key |
| Accounts.NameOf | src/components/Clients.jsx:142-145 | the product's name, or "Unknown Product" when the key is not in the table (`Accounts.LoadReceipt` states it per line) |
| Accounts.ReceiptLineFor | src/components/Clients.jsx:141-158 | one receipt line: the item's key, the product's name or "Unknown Product", the item's quantity and its price at sale (`Accounts.LoadReceipt` states it per line) |
| Accounts.LoadReceipt | src/components/Clients.jsx:131-161 | the receipt keeps the sale's key, store, date, total and amount paid; it has one line per item with the item's key, quantity and price at sale, and the product's name or "Unknown Product" |
| Accounts.ReceiptLinesTotal | src/components/Clients.jsx:149-160 | the receipt lines add up to the items' price times quantity |
| Accounts.RemoveClient | src/components/Clients.jsx:75 | the local list without exactly the deleted store |
| Accounts.ClientDirectory | src/components/Clients.jsx:33 | the stores table as a permutation sorted by name |
| Accounts.ClientEditsKeepList | src/components/Clients.jsx:55-80 | after an add or a delete, the local list and the table still hold the same stores |
| Inventory.FromDraft | src/components/Inventory.jsx:42-43 | the record `products.add` stores for the form, under the key the table hands out |
| Inventory.EditNumber | src/components/Inventory.jsx:127-197 | the edited numeric field becomes the parsed value, or 0 when it did not parse; the other fields are kept |
| Inventory.IsLowStock | src/components/Inventory.jsx:246 | a product's stock is shown in red when it is below 5 |
| Inventory.LowStockProducts | src/components/Home.jsx:77 | exactly the products with quantity below 5 |
| Inventory.ProductList | src/components/Inventory.jsx:28 | the products table as a permutation sorted by name |
| Inventory.LowStockCountMatchesList | src/components/Inventory.jsx:246 | the list flags in red exactly as many products as the dashboard counts as low stock |
| Inventory.ReplaceProduct | src/components/Inventory.jsx:65 | the same keys, with the edited key's record replaced and every other record kept |
| Inventory.ReplaceMissing | src/components/Inventory.jsx:58-65 | editing a key that is not there changes nothing |
| Inventory.RemoveProduct | src/components/Inventory.jsx:78 | the list without exactly the deleted product |
| Inventory.RemoveKeepsOrder | src/components/Inventory.jsx:78 | deletion keeps the order of the remaining products |
| Inventory.InventoryEditsKeepList | src/components/Inventory.jsx:38-83 | after an add, an update or a delete, the local list and the table still hold the same products |
| StockReport.Rows | src/components/StockReport.jsx:50-57 | one row per product |
| StockReport.RowsTotal | src/components/StockReport.jsx:70 | the rows' values add up to the sum of quantity times unit price |
| StockReport.BuildReport | src/components/StockReport.jsx:50-70 | each row copies its product and has value quantity times price; total items is the number of products; total value is the sum of the rows; an empty table is worth 0 |
| Dashboard.TodaySales | src/components/Home.jsx:44 | exactly the sales whose `created_at` starts with today's date |
| Dashboard.SaleDates | src/components/Home.jsx:54 | the map has an entry for each sale key, and only those |
| Dashboard.SaleDatesLookup | src/components/Home.jsx:54 | with unique keys, each sale's entry is its `created_at` |
| Dashboard.SoldToday | src/components/Home.jsx:67-68 | an item counts toward today's profit when its sale's date is in the map, non-empty and starts with today's prefix |
| Dashboard.TodayItems | src/components/Home.jsx:67-70 | exactly the items whose sale date is known, non-empty and today's |
| Dashboard.EarlierItems | src/components/Home.jsx:67-70 | exactly the other items |
| Dashboard.TodayItemsAppend | src/components/Home.jsx:59-71 | today's items of a concatenation are today's items of each part |
| Dashboard.ItemProfit | src/components/Home.jsx:60-63 | an item's profit from its recorded price and cost; an item sold at or above cost makes no loss |
| Dashboard.ComputeProfit | src/components/Home.jsx:56-71 | the `forEach` yields the total profit over all items and the profit over today's items |
| Dashboard.ProfitSplit | src/components/Home.jsx:59-71 | total profit is today's profit plus the profit of the other items |
| Dashboard.SoldTodayIffSaleToday | src/components/Home.jsx:67-68 | an item counts for today exactly when the sale it points at is one of today's sales |
| Dashboard.CollectedTodayWithinTotal | src/components/Home.jsx:47-48 | with no negative payments, money collected today is at most the total collected |
| Dashboard.ClientIds | src/components/Home.jsx:74 | exactly the stores that have a sale; never more stores than sales |
| Dashboard.FetchStats | src/components/Home.jsx:35-87 | every dashboard figure as its sum or count; no more stores visited than sales today, and no more low-stock products than products |
| SalesInterface.SalesScreen.constructor | src/components/SalesInterface.jsx:24-37 | mounting starts with an empty cart and no store or payment, with lists read from the database |
| SalesInterface.SalesScreen.FetchData | src/components/SalesInterface.jsx:32-37 | the lists become all the stores and the products with stock above 0; the rest of the screen is kept |
| SalesInterface.SalesScreen.SelectClient | src/components/SalesInterface.jsx:10 | only the selected store changes |
| SalesInterface.SalesScreen.EnterPaidAmount | src/components/SalesInterface.jsx:15 | only the amount typed changes |
| SalesInterface.SalesScreen.ConfirmAdd | src/components/SalesInterface.jsx:53-71 | the cart becomes the result of the modal's add; a rejection leaves it as it was; a cart valid against the list stays valid |
| SalesInterface.SalesScreen.EditQty | src/components/SalesInterface.jsx:87-96 | the cart becomes `updateQty`'s result and stays valid against the list; lines of other products are kept as they were |
| SalesInterface.CanConfirmSale | src/components/SalesInterface.jsx:105 | the guard of `confirmSale`: a store is selected and the cart is not empty (used by `SalesInterface.SalesScreen.ConfirmSale`) |
| SalesInterface.SalesScreen.ConfirmSale | src/components/SalesInterface.jsx:104-108 | the payment modal opens with an empty amount exactly when a store is selected and the cart is not empty; otherwise nothing changes |
| SalesInterface.SalesScreen.Finalize | src/components/SalesInterface.jsx:110-169 | on success, records the sale, its items copied from the cart and its stock writes, with the stores untouched, shows the receipt, and starts an empty cart with re-read lists; on failure, changes neither the database nor the screen; a cart valid against a current list always commits and leaves no stock below zero |
| SalesInterface.SalesScreen.ShowReceipt | src/components/SalesInterface.jsx:146-162 | `lastSale` holds the sale key, date, store, cart, total and paid amount; then the screen resets and re-reads its lists |
| SalesInterface.SafeCart | src/components/SalesInterface.jsx:127-142 | a cart valid against the listed products commits against the table and leaves no stock below zero |
| Text.Sort | src/components/Inventory.jsx:28 | a permutation of its input, ordered by the key (ascending or descending) |

## Left out

- Rendering, routing, the sidebar, settings, expenses, the barcode scanner and printing (`Receipt.jsx`, `Scanner.jsx`, `Settings.jsx`, `Expenses.jsx`, `App.jsx`, `Sidebar.jsx`) are not part of this model. They hold no logic of the core.
- Number formatting (`toFixed`, `toLocaleDateString`) and floating point are not modelled: money and quantities are integers, and `parseFloat`/`parseInt` become `Option<int>`.
- Reading the clock is not modelled: `new Date().toISOString()` and the dashboard's date prefix are the parameters `now` and `today`.
- `async`/`await` and the `loading`/`refreshing`/`error` flags are not modelled: each handler is one atomic step.
- The product modal's own state (`selectedProduct`, `modalQtyInput`) is not modelled: `SalesInterface.SalesScreen.ConfirmAdd` takes the picked product and the parsed quantity as parameters. So the model does not show that the modal closes after `addToCart` even when `addToCart` rejects the add with an alert.
- The `isReady` check and storage failures (`catch` paths with alerts) are not modelled. Storage is assumed to succeed. The one failure that is modelled is the product missing on re-read in `finalizeSale`.
- The text search filters on the sales screen (`filteredClients`, `filteredProducts`) are not modelled. They only narrow what is displayed.
- `|| 0` on fields read back from the tables is not modelled. Every writer in the core stores every numeric field, so those reads are the identity.
- The sales screen's product list is not in the order the source returns. `where('quantity').above(0)` walks the quantity index, so the source lists products by stock and then by key. `Cart.AvailableProducts` and `SalesInterface.SalesScreen.Current` keep key order. Both hold the same products, and no property of the model depends on the order.
- Sorting follows the Unicode scalar-value order of `seq<char>`. IndexedDB's collation of strings and the order of equal keys are not modelled.
- Store.Ledger.RecordPayment: the balance statement holds only when `currentPaid` is what the table holds for that sale. The screen passes the value it last read, and a stale value is not modelled.
- SalesInterface.SalesScreen.Finalize: requires a selected store, because the payment modal that holds the button opens only through `confirmSale`'s guard. `parseInt('')` as a store key is not modelled.
- SalesInterface.SalesScreen.ConfirmAdd: requires the selected product to come from the screen's list, as it does through `onProductClick`.
- Dashboard.SoldTodayIffSaleToday: requires a non-empty `today` (an ISO date always is) and unique sale keys, which the table guarantees.
