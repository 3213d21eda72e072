/** The inventory screen (src/components/Inventory.jsx): the product form with its
    numeric defaulting, the screen's local product list, and the low-stock flag. */
module Inventory {
  import opened Wrappers
  import opened Seqs
  import opened Text
  import opened Records

  /** The add/edit form's fields before they become a record. */
  datatype ProductDraft = ProductDraft(name: string, quantity: int, unitPrice: int, purchasePrice: int)

  /** A numeric form field that was edited: `parseInt(v) || 0` for the stock,
      `parseFloat(v) || 0` for the prices. */
  datatype NumericField = QuantityField | UnitPriceField | PurchasePriceField

  function EditNumber(d: ProductDraft, field: NumericField, parsed: Option<int>): (r: ProductDraft)
    ensures r.name == d.name
    ensures parsed.None? && field == QuantityField ==> r.quantity == 0
    ensures parsed.None? && field == UnitPriceField ==> r.unitPrice == 0
    ensures parsed.None? && field == PurchasePriceField ==> r.purchasePrice == 0
    ensures r.quantity == (if field == QuantityField then OrZero(parsed) else d.quantity)
    ensures r.unitPrice == (if field == UnitPriceField then OrZero(parsed) else d.unitPrice)
    ensures r.purchasePrice == (if field == PurchasePriceField then OrZero(parsed) else d.purchasePrice)
  {
    match field
    case QuantityField => d.(quantity := OrZero(parsed))
    case UnitPriceField => d.(unitPrice := OrZero(parsed))
    case PurchasePriceField => d.(purchasePrice := OrZero(parsed))
  }

  /** The record the form describes, under the given id. */
  function FromDraft(d: ProductDraft, id: nat): Product
  {
    Product(id, d.name, d.quantity, d.unitPrice, d.purchasePrice)
  }

  /** A product's stock is shown in red when it is below the threshold. */
  predicate IsLowStock(p: Product)
  {
    p.quantity < LowStockThreshold
  }

  function LowStockProducts(products: seq<Product>): (r: seq<Product>)
    ensures forall p :: p in r <==> p in products && p.quantity < LowStockThreshold
  {
    Filter(products, IsLowStock)
  }

  /** The list as fetched, `db.products.orderBy('name')`: the table's records sorted by name. */
  function ProductList(table: seq<Product>): (r: seq<Product>)
    ensures multiset(r) == multiset(table)
    ensures forall p :: p in r <==> p in table
    ensures SortedBy(r, ProductName, false)
  {
    var r := Sort(table, ProductName, false);
    assert forall p :: p in r <==> p in multiset(r);
    r
  }

  /** The low-stock count on the dashboard equals the number of red stock figures
      on the freshly fetched inventory list. */
  lemma LowStockCountMatchesList(table: seq<Product>)
    ensures |LowStockProducts(ProductList(table))| == |LowStockProducts(table)|
  {
    FilterPermutation(ProductList(table), table, IsLowStock);
    assert |multiset(LowStockProducts(ProductList(table)))| == |multiset(LowStockProducts(table))|;
  }

  /** `products.map(p => p.id === edited.id ? edited : p)`, and on the table
      `db.products.update(id, fields)`, which changes nothing when the id is absent. */
  function ReplaceProduct(products: seq<Product>, edited: Product): (r: seq<Product>)
    ensures |r| == |products|
    ensures forall i :: 0 <= i < |r| ==> r[i].id == products[i].id
    ensures forall i :: 0 <= i < |r| && products[i].id != edited.id ==> r[i] == products[i]
    ensures forall i :: 0 <= i < |r| && products[i].id == edited.id ==> r[i] == edited
  {
    seq(|products|, i requires 0 <= i < |products| =>
      if products[i].id == edited.id then edited else products[i])
  }

  /** An update naming an id that no record has leaves the list as it was. */
  lemma ReplaceMissing(products: seq<Product>, edited: Product)
    requires Find(products, ProductId, edited.id).None?
    ensures ReplaceProduct(products, edited) == products
  {
  }

  /** `products.filter(p => p.id !== id)`, and `db.products.delete(id)` on the table:
      exactly the records with that id go, and the rest keep their order. */
  function RemoveProduct(products: seq<Product>, id: nat): (r: seq<Product>)
    ensures forall p :: p in r <==> p in products && p.id != id
  {
    Filter(products, (p: Product) => p.id != id)
  }

  /** The rest keep their relative order: removal distributes over concatenation. */
  lemma RemoveKeepsOrder(a: seq<Product>, b: seq<Product>, id: nat)
    ensures RemoveProduct(a + b, id) == RemoveProduct(a, id) + RemoveProduct(b, id)
  {
    FilterAppend(a, b, (p: Product) => p.id != id);
  }

  /** The screen's list holds the same records as the table. */
  ghost predicate SameProducts(list: seq<Product>, table: seq<Product>)
  {
    forall p :: p in list <==> p in table
  }

  /** Each of add (`[...products, added]`), update and delete applies to the screen's
      list the change it applies to the table, so the list keeps holding the table's
      records between fetches. */
  lemma InventoryEditsKeepList(list: seq<Product>, table: seq<Product>, added: Product, edited: Product, id: nat)
    requires SameProducts(list, table)
    ensures SameProducts(list + [added], table + [added])
    ensures SameProducts(ReplaceProduct(list, edited), ReplaceProduct(table, edited))
    ensures SameProducts(RemoveProduct(list, id), RemoveProduct(table, id))
  {
    var l', t' := ReplaceProduct(list, edited), ReplaceProduct(table, edited);
    forall p ensures p in l' ==> p in t' {
      if p in l' {
        var i :| 0 <= i < |l'| && l'[i] == p;
        assert list[i] in table;
        var j :| 0 <= j < |table| && table[j] == list[i];
        assert t'[j] == p;
      }
    }
    forall p ensures p in t' ==> p in l' {
      if p in t' {
        var j :| 0 <= j < |t'| && t'[j] == p;
        assert table[j] in list;
        var i :| 0 <= i < |list| && list[i] == table[j];
        assert l'[i] == p;
      }
    }
  }
}
