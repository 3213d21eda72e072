/** The store accounts screen (src/components/Clients.jsx): balances derived from
    the sales table, the payment input, the account history, the Pay action,
    the receipt rebuilt from sale items, and the screen's own list of stores. */
module Accounts {
  import opened Wrappers
  import opened Seqs
  import opened Text
  import opened Records

  /** `sales.filter(s => s.client_id === clientId)`. */
  function ClientSales(sales: seq<Sale>, c: nat): (r: seq<Sale>)
    ensures forall s :: s in r <==> s in sales && s.clientId == c
  {
    Filter(sales, (s: Sale) => s.clientId == c)
  }

  /** `calculateBalance(clientId)`: the client's sale totals less what was paid on them. */
  function CalculateBalance(sales: seq<Sale>, c: nat): int
  {
    Sum(ClientSales(sales, c), TotalOf) - Sum(ClientSales(sales, c), PaidOf)
  }

  /** What one sale still owes. */
  function Due(s: Sale): int { s.totalAmount - s.amountPaid }

  /** The client's dues added up sale by sale: an independent statement of the balance. */
  function ClientDue(sales: seq<Sale>, c: nat): int
  {
    if |sales| == 0 then 0
    else (if sales[0].clientId == c then Due(sales[0]) else 0) + ClientDue(sales[1..], c)
  }

  /** The balance is the sum of the per-sale dues over the client's sales. */
  lemma {:induction false} BalanceIsSumOfDues(sales: seq<Sale>, c: nat)
    ensures CalculateBalance(sales, c) == ClientDue(sales, c)
  {
    if |sales| > 0 {
      BalanceIsSumOfDues(sales[1..], c);
      var rest := ClientSales(sales[1..], c);
      if sales[0].clientId == c {
        assert ClientSales(sales, c) == [sales[0]] + rest;
        assert ([sales[0]] + rest)[1..] == rest;
      } else {
        assert ClientSales(sales, c) == rest;
      }
    }
  }

  /** A client with no sales owes nothing. */
  lemma NoSalesNoBalance(sales: seq<Sale>, c: nat)
    requires forall i :: 0 <= i < |sales| ==> sales[i].clientId != c
    ensures CalculateBalance(sales, c) == 0
  {
    FilterNone(sales, (s: Sale) => s.clientId == c);
  }

  /** A new sale adds what it still owes to its own client's balance and to no other. */
  lemma {:induction false} BalanceAfterSale(sales: seq<Sale>, s: Sale, c: nat)
    ensures CalculateBalance(sales + [s], c) ==
            CalculateBalance(sales, c) + (if s.clientId == c then Due(s) else 0)
  {
    var keep := (x: Sale) => x.clientId == c;
    FilterAppend(sales, [s], keep);
    var a := ClientSales(sales, c);
    var b := Filter([s], keep);
    assert ClientSales(sales + [s], c) == a + b;
    SumAppend(a, b, TotalOf);
    SumAppend(a, b, PaidOf);
  }

  /** `db.sales.update(saleId, {amount_paid: paid})`. */
  function SetPaid(sales: seq<Sale>, saleId: nat, paid: int): (r: seq<Sale>)
    ensures |r| == |sales|
    ensures forall i :: 0 <= i < |sales| ==> r[i] == sales[i].(amountPaid := r[i].amountPaid)
    ensures forall i :: 0 <= i < |sales| ==>
              r[i].amountPaid == if sales[i].id == saleId then paid else sales[i].amountPaid
  {
    seq(|sales|, i requires 0 <= i < |sales| =>
      if sales[i].id == saleId then sales[i].(amountPaid := paid) else sales[i])
  }

  lemma {:induction false} ClientDueAfterPayment(sales: seq<Sale>, k: nat, id: nat, paid: int, p: int, c: nat)
    requires Distinct(sales, SaleId) && k < |sales|
    requires sales[k].id == id && paid == sales[k].amountPaid + p
    ensures ClientDue(SetPaid(sales, id, paid), c) ==
            ClientDue(sales, c) - (if sales[k].clientId == c then p else 0)
  {
    var rest := sales[1..];
    assert SetPaid(sales, id, paid)[1..] == SetPaid(rest, id, paid);
    assert Distinct(rest, SaleId) by {
      forall i, j | 0 <= i < j < |rest| ensures rest[i].id != rest[j].id {
        assert rest[i] == sales[i + 1] && rest[j] == sales[j + 1];
      }
    }
    if k == 0 {
      assert SetPaid(rest, id, paid) == rest by {
        forall i | 0 <= i < |rest| ensures rest[i].id != id {
          assert rest[i] == sales[i + 1];
        }
      }
    } else {
      assert rest[k - 1] == sales[k];
      ClientDueAfterPayment(rest, k - 1, id, paid, p, c);
    }
  }

  /** A payment p recorded on a sale, on top of what that sale shows as paid, lowers
      its client's balance by exactly p and leaves every other client's balance
      as it was. */
  lemma PaymentMovesBalance(sales: seq<Sale>, k: nat, saleId: nat, currentPaid: int, p: int, c: nat)
    requires Distinct(sales, SaleId) && k < |sales|
    requires sales[k].id == saleId && sales[k].amountPaid == currentPaid
    ensures CalculateBalance(SetPaid(sales, saleId, currentPaid + p), c) ==
            CalculateBalance(sales, c) - (if sales[k].clientId == c then p else 0)
  {
    var after := SetPaid(sales, saleId, currentPaid + p);
    var moved := if sales[k].clientId == c then p else 0;
    calc {
      CalculateBalance(after, c);
      == { BalanceIsSumOfDues(after, c); }
      ClientDue(after, c);
      == { ClientDueAfterPayment(sales, k, saleId, currentPaid + p, p, c); }
      ClientDue(sales, c) - moved;
      == { BalanceIsSumOfDues(sales, c); }
      CalculateBalance(sales, c) - moved;
    }
  }

  /** `PaymentMovesBalance` for every client at once, for a payment recorded on the
      sale with key `saleId` on top of the amount the table holds for it. */
  lemma PaymentMovesEveryBalance(sales: seq<Sale>, saleId: nat, currentPaid: int, p: int)
    requires Distinct(sales, SaleId)
    ensures forall k, c :: 0 <= k < |sales| && sales[k].id == saleId && sales[k].amountPaid == currentPaid ==>
      CalculateBalance(SetPaid(sales, saleId, currentPaid + p), c) ==
      CalculateBalance(sales, c) - (if sales[k].clientId == c then p else 0)
  {
    forall k, c | 0 <= k < |sales| && sales[k].id == saleId && sales[k].amountPaid == currentPaid
      ensures CalculateBalance(SetPaid(sales, saleId, currentPaid + p), c) ==
              CalculateBalance(sales, c) - (if sales[k].clientId == c then p else 0)
    {
      PaymentMovesBalance(sales, k, saleId, currentPaid, p, c);
    }
  }

  /** The answer to the payment prompt: cancelled, left empty, or typed text
      with what `parseFloat` made of it (`None` for NaN). */
  datatype PaymentReply = Cancelled | Empty | Entered(parsed: Option<int>)

  /** The payment `handleRecordPayment` goes on to record, if any. Any number is
      accepted: there is no check of sign or of what is owed. */
  function PaymentAmount(reply: PaymentReply): (p: Option<int>)
    ensures p.None? <==> reply == Cancelled || reply == Empty || reply == Entered(None)
    ensures p.Some? ==> reply == Entered(p)
  {
    match reply
    case Entered(Some(v)) => Some(v)
    case _ => None
  }

  /** `openAccount`: the client's sales, newest first
      (`where('client_id').equals(id).reverse().sortBy('created_at')`). */
  function AccountHistory(sales: seq<Sale>, c: nat): (h: seq<Sale>)
    ensures multiset(h) == multiset(ClientSales(sales, c))
    ensures forall s :: s in h <==> s in sales && s.clientId == c
    ensures SortedBy(h, CreatedAt, true)
  {
    var h := Sort(ClientSales(sales, c), CreatedAt, true);
    assert forall s :: s in h <==> s in multiset(h);
    h
  }

  /** The history shows the Pay button on a sale exactly when it still owes something. */
  predicate PayOffered(s: Sale)
  {
    s.totalAmount - s.amountPaid > 0
  }

  lemma {:induction false} PositiveDueHasOwingSale(sales: seq<Sale>, c: nat)
    requires ClientDue(sales, c) > 0
    ensures exists s :: s in sales && s.clientId == c && PayOffered(s)
  {
    if sales[0].clientId == c && PayOffered(sales[0]) {
      assert sales[0] in sales;
    } else {
      PositiveDueHasOwingSale(sales[1..], c);
      var s :| s in sales[1..] && s.clientId == c && PayOffered(s);
      assert s in sales;
    }
  }

  /** A store with a positive balance has at least one sale in its history on
      which the Pay action is offered. */
  lemma OwingClientIsOfferedPay(sales: seq<Sale>, c: nat)
    requires CalculateBalance(sales, c) > 0
    ensures exists s :: s in AccountHistory(sales, c) && PayOffered(s)
  {
    BalanceIsSumOfDues(sales, c);
    PositiveDueHasOwingSale(sales, c);
  }

  /** The receipt's name for a product that is no longer in the table. */
  const UnknownProduct: string := "Unknown Product"

  datatype ReceiptLine = ReceiptLine(itemId: nat, name: string, saleQty: int, unitPrice: int)

  /** What `loadReceipt` hands to the receipt view. */
  datatype Receipt = Receipt(saleId: nat, client: Client, createdAt: string,
                             lines: seq<ReceiptLine>, total: int, amountPaid: int)

  function LineTotal(l: ReceiptLine): int { l.unitPrice * l.saleQty }

  /** `db.sale_items.where('sale_id').equals(saleId)`. */
  function ItemsOfSale(items: seq<SaleItem>, saleId: nat): (r: seq<SaleItem>)
    ensures forall i :: i in r <==> i in items && i.saleId == saleId
  {
    Filter(items, (i: SaleItem) => i.saleId == saleId)
  }

  /** The product's name, or "Unknown Product" when `db.products.get` finds none. */
  function NameOf(products: seq<Product>, id: nat): string
  {
    match Find(products, ProductId, id)
    case Some(p) => p.name
    case None => UnknownProduct
  }

  function ReceiptLineFor(item: SaleItem, products: seq<Product>): ReceiptLine
  {
    ReceiptLine(item.id, NameOf(products, item.productId), item.quantity, item.priceAtSale)
  }

  /** `loadReceipt(sale)`: one line per sale item of the sale, in table order, named
      after its product, with the item's quantity and its price at sale; the total
      and the paid amount come from the sale record. */
  function LoadReceipt(sale: Sale, client: Client, items: seq<SaleItem>, products: seq<Product>): (r: Receipt)
    ensures r.saleId == sale.id && r.client == client && r.createdAt == sale.createdAt
    ensures r.total == sale.totalAmount && r.amountPaid == sale.amountPaid
    ensures |r.lines| == |ItemsOfSale(items, sale.id)|
    ensures forall k :: 0 <= k < |r.lines| ==>
      var item := ItemsOfSale(items, sale.id)[k];
      && r.lines[k].itemId == item.id
      && r.lines[k].saleQty == item.quantity
      && r.lines[k].unitPrice == item.priceAtSale
      && (Find(products, ProductId, item.productId).Some? ==>
            r.lines[k].name == Find(products, ProductId, item.productId).value.name)
      && (Find(products, ProductId, item.productId).None? ==> r.lines[k].name == UnknownProduct)
  {
    var own := ItemsOfSale(items, sale.id);
    var lines := seq(|own|, k requires 0 <= k < |own| => ReceiptLineFor(own[k], products));
    Receipt(sale.id, client, sale.createdAt, lines, sale.totalAmount, sale.amountPaid)
  }

  /** The receipt lines add up to what the sale's items add up to. */
  lemma {:induction false} ReceiptLinesTotal(items: seq<SaleItem>, products: seq<Product>)
    ensures Sum(seq(|items|, k requires 0 <= k < |items| => ReceiptLineFor(items[k], products)), LineTotal)
            == Sum(items, ItemAmount)
  {
    if |items| > 0 {
      var lines := seq(|items|, k requires 0 <= k < |items| => ReceiptLineFor(items[k], products));
      assert lines[1..] == seq(|items[1..]|, k requires 0 <= k < |items[1..]| => ReceiptLineFor(items[1..][k], products));
      ReceiptLinesTotal(items[1..], products);
    }
  }

  /** `clients.filter(c => c.id !== id)`, and `db.clients.delete(id)` on the table. */
  function RemoveClient(clients: seq<Client>, id: nat): (r: seq<Client>)
    ensures forall c :: c in r <==> c in clients && c.id != id
  {
    Filter(clients, (c: Client) => c.id != id)
  }

  /** The screen's store list holds the same records as the table. */
  ghost predicate SameClients(list: seq<Client>, table: seq<Client>)
  {
    forall c :: c in list <==> c in table
  }

  /** The store list as fetched, `db.clients.orderBy('name')`: the table's records sorted by name. */
  function ClientDirectory(table: seq<Client>): (r: seq<Client>)
    ensures multiset(r) == multiset(table)
    ensures SortedBy(r, ClientName, false)
    ensures SameClients(r, table)
  {
    var r := Sort(table, ClientName, false);
    assert forall c :: c in r <==> c in multiset(r);
    r
  }

  /** `handleAddClient` and `deleteClient` apply the same change to the screen's list
      as to the table, so the list keeps holding the table's records. */
  lemma ClientEditsKeepList(list: seq<Client>, table: seq<Client>, added: Client, id: nat)
    requires SameClients(list, table)
    ensures SameClients(list + [added], table + [added])
    ensures SameClients(RemoveClient(list, id), RemoveClient(table, id))
  {
  }
}
