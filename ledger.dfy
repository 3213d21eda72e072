/** The IndexedDB database (src/lib/db.js) as the screens change it: four tables
    kept in primary-key order, each with its `++id` key generator. */
module Store {
  import opened Wrappers
  import opened Seqs
  import opened Records
  import opened Cart
  import opened Accounts
  import opened Inventory

  /** Why a sale could not be recorded: a cart line's product was no longer in the
      table when its stock was re-read. */
  datatype FinalizeError = ProductMissing(productId: nat)

  /** The `for (const item of cart)` loop of the sale transaction, on the transaction's
      working copy: for each line, a sale item copying it (quantity, price and cost at
      sale) under the next item key, then the product re-read and its quantity lowered
      by the line's. `missing` names the first line's product that is not there on
      re-read, which aborts the transaction. */
  method RecordLines(products: seq<Product>, cart: seq<CartLine>, saleId: nat, firstItemId: nat)
    returns (missing: Option<nat>, ps: seq<Product>, newItems: seq<SaleItem>)
    ensures missing.None? <==> AllStocked(products, cart)
    ensures missing.None? ==> ps == Decrement(products, cart) && newItems == NewItems(saleId, cart, firstItemId)
    ensures missing.Some? ==>
      && Find(products, ProductId, missing.value).None?
      && exists j :: 0 <= j < |cart| && cart[j].item.id == missing.value
  {
    missing := None;
    ps, newItems := products, [];
    var i := 0;
    while i < |cart|
      invariant 0 <= i <= |cart|
      invariant newItems == NewItems(saleId, cart[..i], firstItemId)
      invariant ps == Decrement(products, cart[..i])
      invariant AllStocked(products, cart[..i])
    {
      var line := cart[i];
      NewItemsStep(saleId, cart, i, firstItemId);
      newItems := newItems + [ItemFor(saleId, line, firstItemId + i)];
      DecrementKeepsKeys(products, cart[..i], line.item.id);
      var product := Find(ps, ProductId, line.item.id);
      if product.None? {
        MissingLine(products, cart, i);
        return Some(line.item.id), ps, newItems;
      }
      StockedStep(products, cart, i);
      DecrementPrefix(products, cart, i);
      // The product was found, so this writes its quantity less the line's.
      ps := CommitLine(ps, line);
      i := i + 1;
    }
    assert cart[..|cart|] == cart;
  }

  /** A line whose product is not in the table stops the cart from being stocked. */
  lemma MissingLine(products: seq<Product>, cart: seq<CartLine>, i: nat)
    requires i < |cart| && Find(products, ProductId, cart[i].item.id).None?
    ensures !AllStocked(products, cart)
  {
    AllStockedAt(products, cart);
  }

  /** A stocked prefix followed by a stocked line is a stocked prefix. */
  lemma StockedStep(products: seq<Product>, cart: seq<CartLine>, i: nat)
    requires i < |cart| && AllStocked(products, cart[..i])
    requires Find(products, ProductId, cart[i].item.id).Some?
    ensures AllStocked(products, cart[..i + 1])
  {
    assert cart[..i + 1][..i] == cart[..i];
  }

  /** The items a sale recorded are exactly the items stored under its key, when every
      older item points at an older sale; so the receipt rebuilt from the items table
      adds up to the cart total the sale was recorded with. */
  lemma SaleItemsReconcile(items: seq<SaleItem>, saleId: nat, cart: seq<CartLine>, firstId: nat)
    requires forall i :: 0 <= i < |items| ==> items[i].saleId < saleId
    ensures ItemsOfSale(items + NewItems(saleId, cart, firstId), saleId) == NewItems(saleId, cart, firstId)
    ensures Sum(ItemsOfSale(items + NewItems(saleId, cart, firstId), saleId), ItemAmount) == CartTotal(cart)
  {
    var keep := (i: SaleItem) => i.saleId == saleId;
    var added := NewItems(saleId, cart, firstId);
    FilterAppend(items, added, keep);
    FilterNone(items, keep);
    FilterAll(added, keep);
    assert [] + added == added;
    ItemsReconcile(saleId, cart, firstId);
  }

  /** A recorded sale moves every client's balance: its own client's by what the sale
      still owes, every other client's not at all. */
  lemma SaleMovesBalances(sales: seq<Sale>, s: Sale)
    ensures forall c ::
              CalculateBalance(sales + [s], c) ==
              CalculateBalance(sales, c) + (if s.clientId == c then Due(s) else 0)
  {
    forall c {
      BalanceAfterSale(sales, s, c);
    }
  }

  class Ledger {
    var products: seq<Product>
    var clients: seq<Client>
    var sales: seq<Sale>
    var items: seq<SaleItem>
    /** The next key each table's generator hands out. */
    var nextProductId: nat
    var nextClientId: nat
    var nextSaleId: nat
    var nextItemId: nat

    /** Keys are unique, increasing in table order, and below the generator; every
        sale item points at a sale key that has been handed out. */
    ghost predicate Valid()
      reads this
    {
      && KeyedBelow(products, ProductId, nextProductId)
      && KeyedBelow(clients, ClientId, nextClientId)
      && KeyedBelow(sales, SaleId, nextSaleId)
      && KeyedBelow(items, ItemId, nextItemId)
      && (forall i :: 0 <= i < |items| ==> items[i].saleId < nextSaleId)
    }

    /** An empty database; auto-increment keys start at 1. */
    constructor ()
      ensures Valid()
      ensures products == [] && clients == [] && sales == [] && items == []
      ensures nextProductId == 1 && nextClientId == 1 && nextSaleId == 1 && nextItemId == 1
    {
      products, clients, sales, items := [], [], [], [];
      nextProductId, nextClientId, nextSaleId, nextItemId := 1, 1, 1, 1;
    }

    /** `db.products.add(newProduct)`: the draft becomes a record under a fresh key,
        after every existing product, which stay as they were. */
    method AddProduct(d: ProductDraft) returns (id: nat)
      requires Valid()
      modifies this
      ensures Valid()
      ensures id == old(nextProductId) && nextProductId == id + 1
      ensures products == old(products) + [FromDraft(d, id)]
      ensures forall i :: 0 <= i < |old(products)| ==> old(products)[i].id != id
      ensures clients == old(clients) && sales == old(sales) && items == old(items)
      ensures nextClientId == old(nextClientId) && nextSaleId == old(nextSaleId) && nextItemId == old(nextItemId)
    {
      id := nextProductId;
      KeyedBelowAppend(products, ProductId, nextProductId, FromDraft(d, id));
      products := products + [FromDraft(d, id)];
      nextProductId := nextProductId + 1;
    }

    /** `db.products.update(edited.id, {name, quantity, unit_price, purchase_price})`:
        the record with that key takes the edited fields; no other record changes,
        and nothing changes when no record has that key. */
    method UpdateProduct(edited: Product)
      requires Valid()
      modifies this
      ensures Valid()
      ensures products == ReplaceProduct(old(products), edited)
      ensures Find(old(products), ProductId, edited.id).None? ==> products == old(products)
      ensures clients == old(clients) && sales == old(sales) && items == old(items)
      ensures nextProductId == old(nextProductId) && nextClientId == old(nextClientId)
      ensures nextSaleId == old(nextSaleId) && nextItemId == old(nextItemId)
    {
      if Find(products, ProductId, edited.id).None? {
        ReplaceMissing(products, edited);
      }
      products := ReplaceProduct(products, edited);
    }

    /** `deleteProduct(id)`: when the user confirms, the record with that key goes;
        the other products keep their order and sale items are left alone. */
    method DeleteProduct(id: nat, confirmed: bool)
      requires Valid()
      modifies this
      ensures Valid()
      ensures products == if confirmed then RemoveProduct(old(products), id) else old(products)
      ensures clients == old(clients) && sales == old(sales) && items == old(items)
      ensures nextProductId == old(nextProductId) && nextClientId == old(nextClientId)
      ensures nextSaleId == old(nextSaleId) && nextItemId == old(nextItemId)
    {
      if confirmed {
        FilterKeyedBelow(products, (p: Product) => p.id != id, ProductId, nextProductId);
        products := RemoveProduct(products, id);
      }
    }

    /** `handleAddClient`: a new store under a fresh key, after the existing ones. */
    method AddClient(name: string, address: string) returns (id: nat)
      requires Valid()
      modifies this
      ensures Valid()
      ensures id == old(nextClientId) && nextClientId == id + 1
      ensures clients == old(clients) + [Client(id, name, address)]
      ensures forall i :: 0 <= i < |old(clients)| ==> old(clients)[i].id != id
      ensures products == old(products) && sales == old(sales) && items == old(items)
      ensures nextProductId == old(nextProductId) && nextSaleId == old(nextSaleId) && nextItemId == old(nextItemId)
    {
      id := nextClientId;
      KeyedBelowAppend(clients, ClientId, nextClientId, Client(id, name, address));
      clients := clients + [Client(id, name, address)];
      nextClientId := nextClientId + 1;
    }

    /** `deleteClient(id)`: when confirmed, only the store record goes; its sales stay,
        still pointing at the removed key. */
    method DeleteClient(id: nat, confirmed: bool)
      requires Valid()
      modifies this
      ensures Valid()
      ensures clients == if confirmed then RemoveClient(old(clients), id) else old(clients)
      ensures products == old(products) && sales == old(sales) && items == old(items)
      ensures nextProductId == old(nextProductId) && nextClientId == old(nextClientId)
      ensures nextSaleId == old(nextSaleId) && nextItemId == old(nextItemId)
    {
      if confirmed {
        FilterKeyedBelow(clients, (c: Client) => c.id != id, ClientId, nextClientId);
        clients := RemoveClient(clients, id);
      }
    }

    /** `handleRecordPayment(saleId, currentPaid, …)`: a cancelled, empty or
        non-numeric reply changes nothing; a number p stores `currentPaid + p` as the
        sale's amount paid. When `currentPaid` is what the table holds for that sale,
        the sale's client owes exactly p less and every other client owes the same. */
    method RecordPayment(saleId: nat, currentPaid: int, reply: PaymentReply) returns (applied: bool)
      requires Valid()
      modifies this
      ensures Valid()
      ensures applied <==> PaymentAmount(reply).Some?
      ensures !applied ==> sales == old(sales)
      ensures applied ==> sales == SetPaid(old(sales), saleId, currentPaid + PaymentAmount(reply).value)
      ensures applied ==> forall k, c ::
        (0 <= k < |old(sales)| && old(sales)[k].id == saleId && old(sales)[k].amountPaid == currentPaid) ==>
        CalculateBalance(sales, c) ==
        CalculateBalance(old(sales), c) - (if old(sales)[k].clientId == c then PaymentAmount(reply).value else 0)
      ensures products == old(products) && clients == old(clients) && items == old(items)
      ensures nextProductId == old(nextProductId) && nextClientId == old(nextClientId)
      ensures nextSaleId == old(nextSaleId) && nextItemId == old(nextItemId)
    {
      var amount := PaymentAmount(reply);
      if amount.None? {
        return false;
      }
      var payment := amount.value;
      KeyedBelowDistinct(sales, SaleId, nextSaleId);
      PaymentMovesEveryBalance(sales, saleId, currentPaid, payment);
      sales := SetPaid(sales, saleId, currentPaid + payment);
      applied := true;
    }

    /** The commit of the sale transaction: the working copy of the products table,
        the new sale and its items become the database's, and the key generators
        move past the keys handed out. */
    method Commit(sale: Sale, cart: seq<CartLine>, ps: seq<Product>, newItems: seq<SaleItem>)
      requires Valid()
      requires sale.id == nextSaleId
      requires ps == Decrement(products, cart) && newItems == NewItems(nextSaleId, cart, nextItemId)
      modifies this
      ensures Valid()
      ensures products == ps && sales == old(sales) + [sale] && items == old(items) + newItems
      ensures nextSaleId == old(nextSaleId) + 1 && nextItemId == old(nextItemId) + |cart|
      ensures clients == old(clients)
      ensures nextProductId == old(nextProductId) && nextClientId == old(nextClientId)
    {
      KeyedBelowAppend(sales, SaleId, nextSaleId, sale);
      NewItemsKeyed(items, nextSaleId, cart, nextItemId);
      DecrementKeyedBelow(products, cart, nextProductId);
      products, sales, items := ps, sales + [sale], items + newItems;
      nextSaleId, nextItemId := nextSaleId + 1, nextItemId + |cart|;
    }

    /** The `finalizeSale` transaction: a sale with the cart total, the paid amount
        (`parseFloat(paidAmount) || 0`) and the timestamp; then, line by line, a sale
        item copying the line and a stock write lowering the product's stored quantity
        by the line's. If a line's product is missing when re-read, the transaction
        aborts: none of its writes persist and the key generators are as they were. */
    method FinalizeSale(clientId: nat, cart: seq<CartLine>, paidInput: Option<int>, now: string)
      returns (r: Result<nat, FinalizeError>)
      requires Valid()
      modifies this
      ensures Valid()
      ensures r.Success? <==> AllStocked(old(products), cart)
      ensures r.Success? ==>
        && r.value == old(nextSaleId)
        && sales == old(sales) + [Sale(r.value, clientId, CartTotal(cart), OrZero(paidInput), now)]
        && items == old(items) + NewItems(r.value, cart, old(nextItemId))
        && products == Decrement(old(products), cart)
        && nextSaleId == old(nextSaleId) + 1
        && nextItemId == old(nextItemId) + |cart|
      ensures r.Success? ==> Sum(ItemsOfSale(items, r.value), ItemAmount) == CartTotal(cart)
      ensures r.Success? ==> forall c ::
                CalculateBalance(sales, c) ==
                CalculateBalance(old(sales), c) + (if clientId == c then CartTotal(cart) - OrZero(paidInput) else 0)
      ensures r.Failure? ==>
        && (exists j :: 0 <= j < |cart| && cart[j].item.id == r.error.productId)
        && Find(old(products), ProductId, r.error.productId).None?
        && products == old(products) && sales == old(sales) && items == old(items)
        && nextSaleId == old(nextSaleId) && nextItemId == old(nextItemId)
      ensures clients == old(clients)
      ensures nextProductId == old(nextProductId) && nextClientId == old(nextClientId)
    {
      var finalPaidAmount := OrZero(paidInput);
      var sId := nextSaleId;
      var sale := Sale(sId, clientId, CartTotal(cart), finalPaidAmount, now);
      var missing, ps, newItems := RecordLines(products, cart, sId, nextItemId);
      if missing.Some? {
        // The transaction aborts: none of its writes reach the tables.
        return Failure(ProductMissing(missing.value));
      }
      SaleItemsReconcile(items, sId, cart, nextItemId);
      SaleMovesBalances(sales, sale);
      Commit(sale, cart, ps, newItems);
      r := Success(sId);
    }
  }
}
