/** The sales screen (src/components/SalesInterface.jsx): the products and stores it
    lists, the cart being built, the store picked for the sale, the payment modal,
    and the sale transaction it runs against the database. */
module SalesInterface {
  import opened Wrappers
  import opened Seqs
  import opened Records
  import opened Cart
  import opened Accounts
  import opened Store

  /** What the receipt view is handed after a sale (`lastSale`). */
  datatype LastSale = LastSale(saleId: nat, date: string, client: Option<Client>,
                               items: seq<CartLine>, total: int, amountPaid: int)

  /** The guard of `confirmSale`: a store is selected and the cart is not empty. */
  predicate CanConfirmSale(selectedClient: Option<nat>, cart: seq<CartLine>)
  {
    selectedClient.Some? && |cart| > 0
  }

  class SalesScreen {
    /** The database the screen reads and writes. */
    const db: Ledger
    /** The screen's copies of the tables, as `fetchData` last read them. */
    var products: seq<Product>
    var clients: seq<Client>
    var selectedClient: Option<nat>
    var cart: seq<CartLine>
    /** The amount typed in the payment modal, as `parseFloat` reads it. */
    var paidAmount: Option<int>
    var showPaymentModal: bool
    var showReceipt: bool
    var lastSale: Option<LastSale>

    ghost predicate Valid()
      reads this, db
    {
      db.Valid()
    }

    /** The screen's lists match the database: stores as stored, products with stock above 0. */
    ghost predicate Current()
      reads this, db
    {
      products == AvailableProducts(db.products) && clients == db.clients
    }

    /** The cart was checked against a product list that is current. */
    ghost predicate CartChecked()
      reads this, db
    {
      products == AvailableProducts(db.products) && CartValid(cart, products)
    }

    /** Mounting the screen: everything empty, then `fetchData`. */
    constructor (database: Ledger)
      requires database.Valid()
      ensures db == database && Valid() && Current()
      ensures selectedClient.None? && cart == [] && paidAmount.None?
      ensures !showPaymentModal && !showReceipt && lastSale.None?
    {
      db := database;
      products := AvailableProducts(database.products);
      clients := database.clients;
      selectedClient := None;
      cart := [];
      paidAmount := None;
      showPaymentModal := false;
      showReceipt := false;
      lastSale := None;
    }

    /** `fetchData`: re-reads every store and the products with stock above 0. */
    method FetchData()
      modifies this
      ensures Current()
      ensures selectedClient == old(selectedClient) && cart == old(cart) && paidAmount == old(paidAmount)
      ensures showPaymentModal == old(showPaymentModal) && showReceipt == old(showReceipt)
      ensures lastSale == old(lastSale)
    {
      products := AvailableProducts(db.products);
      clients := db.clients;
    }

    /** Picking a store in the store list. */
    method SelectClient(id: Option<nat>)
      modifies this
      ensures selectedClient == id
      ensures products == old(products) && clients == old(clients) && cart == old(cart)
      ensures paidAmount == old(paidAmount) && showPaymentModal == old(showPaymentModal)
      ensures showReceipt == old(showReceipt) && lastSale == old(lastSale)
    {
      selectedClient := id;
    }

    /** Typing in the payment modal's amount field. */
    method EnterPaidAmount(parsed: Option<int>)
      modifies this
      ensures paidAmount == parsed
      ensures products == old(products) && clients == old(clients) && cart == old(cart)
      ensures selectedClient == old(selectedClient) && showPaymentModal == old(showPaymentModal)
      ensures showReceipt == old(showReceipt) && lastSale == old(lastSale)
    {
      paidAmount := parsed;
    }

    /** `confirmAddToCart` on the product picked from the list: the cart becomes what
        the pure cart edit gives, and a cart that was valid against the list stays so. */
    method ConfirmAdd(selected: Option<Product>, qtyInput: Option<int>) returns (rejected: Option<Rejection>)
      requires selected.Some? ==> Find(products, ProductId, selected.value.id) == Some(selected.value)
      modifies this
      ensures cart == ConfirmAddToCart(old(cart), selected, qtyInput).cart
      ensures rejected == ConfirmAddToCart(old(cart), selected, qtyInput).rejected
      ensures rejected.Some? ==> cart == old(cart)
      ensures CartValid(old(cart), products) ==> CartValid(cart, products)
      ensures products == old(products) && clients == old(clients) && selectedClient == old(selectedClient)
      ensures paidAmount == old(paidAmount) && showPaymentModal == old(showPaymentModal)
      ensures showReceipt == old(showReceipt) && lastSale == old(lastSale)
    {
      var step := ConfirmAddToCart(cart, selected, qtyInput);
      if CartValid(cart, products) {
        ConfirmAddKeepsCartValid(cart, products, selected, qtyInput);
      }
      cart := step.cart;
      rejected := step.rejected;
    }

    /** The `+`/`-` buttons of a cart line (`updateQty(id, delta)`), checked
        against the screen's product list. */
    method EditQty(id: nat, delta: int)
      modifies this
      ensures cart == UpdateQty(old(cart), products, id, delta)
      ensures CartValid(old(cart), products) ==> CartValid(cart, products)
      ensures CartValid(old(cart), products) ==>
                forall l: CartLine :: l.item.id != id ==> (l in cart <==> l in old(cart))
      ensures products == old(products) && clients == old(clients) && selectedClient == old(selectedClient)
      ensures paidAmount == old(paidAmount) && showPaymentModal == old(showPaymentModal)
      ensures showReceipt == old(showReceipt) && lastSale == old(lastSale)
    {
      if CartValid(cart, products) {
        UpdateQtyKeepsCartValid(cart, products, id, delta);
        UpdateQtyKeepsOtherLines(cart, products, id, delta);
      }
      cart := UpdateQty(cart, products, id, delta);
    }

    /** `confirmSale`: opens the payment modal with an empty amount exactly when a
        store is selected and the cart is not empty; otherwise nothing changes. */
    method ConfirmSale()
      modifies this
      ensures CanConfirmSale(old(selectedClient), old(cart)) ==> showPaymentModal && paidAmount.None?
      ensures !CanConfirmSale(old(selectedClient), old(cart)) ==>
                showPaymentModal == old(showPaymentModal) && paidAmount == old(paidAmount)
      ensures products == old(products) && clients == old(clients) && selectedClient == old(selectedClient)
      ensures cart == old(cart) && showReceipt == old(showReceipt) && lastSale == old(lastSale)
    {
      if selectedClient.None? || |cart| == 0 {
        return;
      }
      showPaymentModal := true;
      paidAmount := None;
    }

    /** `finalizeSale`, run from the payment modal, which only `confirmSale`'s guard
        opens, so a store is selected. On success the screen shows the receipt of
        the new sale, starts an empty cart and re-reads the database; when the
        transaction fails, the screen is left as it was. A cart kept valid against a
        current product list always commits and drives no stock below zero. */
    method Finalize(now: string, today: string) returns (r: Result<nat, FinalizeError>)
      requires Valid() && selectedClient.Some?
      modifies this, db
      ensures Valid() && db.clients == old(db.clients)
      ensures r.Success? <==> AllStocked(old(db.products), old(cart))
      ensures r.Success? ==>
        && db.sales == old(db.sales) + [Sale(r.value, old(selectedClient).value, CartTotal(old(cart)), OrZero(old(paidAmount)), now)]
        && db.products == Decrement(old(db.products), old(cart))
        && db.items == old(db.items) + NewItems(r.value, old(cart), old(db.nextItemId))
        && Sum(ItemsOfSale(db.items, r.value), ItemAmount) == CartTotal(old(cart))
      ensures r.Success? ==>
        && lastSale == Some(LastSale(r.value, today, Find(old(clients), ClientId, old(selectedClient).value),
                                     old(cart), CartTotal(old(cart)), OrZero(old(paidAmount))))
        && cart == [] && selectedClient.None? && paidAmount.None?
        && showReceipt && !showPaymentModal && Current()
      ensures r.Failure? ==>
        && db.products == old(db.products) && db.sales == old(db.sales) && db.items == old(db.items)
        && products == old(products) && clients == old(clients) && cart == old(cart)
        && selectedClient == old(selectedClient) && paidAmount == old(paidAmount)
        && showPaymentModal == old(showPaymentModal) && showReceipt == old(showReceipt)
        && lastSale == old(lastSale)
      ensures old(CartChecked()) ==> r.Success? && NoneBelowZero(old(db.products), db.products)
    {
      if CartChecked() {
        KeyedBelowDistinct(db.products, ProductId, db.nextProductId);
        SafeCart(db.products, cart);
      }
      r := db.FinalizeSale(selectedClient.value, cart, paidAmount, now);
      if r.Success? {
        ShowReceipt(r.value, today);
      }
    }

    /** The screen after a recorded sale: `lastSale` for the receipt view, an
        empty cart, no store selected, the modal closed, and `fetchData` again. */
    method ShowReceipt(saleId: nat, today: string)
      requires selectedClient.Some?
      modifies this
      ensures lastSale == Some(LastSale(saleId, today, Find(old(clients), ClientId, old(selectedClient).value),
                                        old(cart), CartTotal(old(cart)), OrZero(old(paidAmount))))
      ensures cart == [] && selectedClient.None? && paidAmount.None?
      ensures showReceipt && !showPaymentModal && Current()
    {
      var clientId := selectedClient.value;
      lastSale := Some(LastSale(saleId, today, Find(clients, ClientId, clientId), cart, CartTotal(cart), OrZero(paidAmount)));
      cart := [];
      selectedClient := None;
      paidAmount := None;
      showReceipt := true;
      showPaymentModal := false;
      FetchData();
    }
  }

  /** No product that had stock at or above zero before is below zero after. */
  ghost predicate NoneBelowZero(before: seq<Product>, after: seq<Product>)
    requires |before| == |after|
  {
    forall k :: 0 <= k < |before| && before[k].quantity >= 0 ==> after[k].quantity >= 0
  }

  /** A cart valid against the products a table lists commits against that table
      and leaves no stocked product below zero. */
  lemma SafeCart(table: seq<Product>, cart: seq<CartLine>)
    requires Distinct(table, ProductId)
    requires CartValid(cart, AvailableProducts(table))
    ensures AllStocked(table, cart)
    ensures NoneBelowZero(table, Decrement(table, cart))
  {
    CartValidAgainstTable(cart, table);
    assert forall i :: 0 <= i < |cart| ==> Stocked(table, cart[i]);
    AllStockedAt(table, cart);
    NoNegativeStock(table, cart);
  }
}
