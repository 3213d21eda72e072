/** The four tables of the truck's local database (src/lib/db.js): products,
    clients (stores), sales and sale items. Every table is keyed by an
    auto-incremented `id`. Money is held as an integer number of minor units. */
module Records {
  import opened Wrappers

  datatype Product = Product(id: nat, name: string, quantity: int, unitPrice: int, purchasePrice: int)

  datatype Client = Client(id: nat, name: string, address: string)

  /** One delivery to one store: what it came to and how much has been paid on it. */
  datatype Sale = Sale(id: nat, clientId: nat, totalAmount: int, amountPaid: int, createdAt: string)

  /** One product line of a sale, with the sale price and the cost frozen at sale time. */
  datatype SaleItem = SaleItem(id: nat, saleId: nat, productId: nat, quantity: int,
                               priceAtSale: int, purchasePriceAtSale: int)

  function ProductId(p: Product): nat { p.id }
  function ProductName(p: Product): string { p.name }
  function ProductQuantity(p: Product): int { p.quantity }
  function ClientId(c: Client): nat { c.id }
  function ClientName(c: Client): string { c.name }
  function SaleId(s: Sale): nat { s.id }
  function CreatedAt(s: Sale): string { s.createdAt }
  function TotalOf(s: Sale): int { s.totalAmount }
  function PaidOf(s: Sale): int { s.amountPaid }
  function ItemId(i: SaleItem): nat { i.id }
  function ItemSaleId(i: SaleItem): nat { i.saleId }
  /** What an item contributes to its sale: price at sale times quantity. */
  function ItemAmount(i: SaleItem): int { i.priceAtSale * i.quantity }

  /** Products below this quantity are "low stock", on the dashboard and in the inventory list. */
  const LowStockThreshold: int := 5

  /** `parseFloat(text) || 0` and `parseInt(text) || 0`: a numeric input that did
      not parse (`None`, JavaScript's NaN) counts as 0. */
  function OrZero(parsed: Option<int>): (r: int)
    ensures parsed.None? ==> r == 0
    ensures parsed.Some? ==> r == parsed.value
  {
    if parsed.Some? then parsed.value else 0
  }
}
