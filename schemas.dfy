/** The two persisted records the core works on (the `products` and `sales`
    tables). Decimal columns are exact reals; the owning user is kept only as
    the tenant key `userId`. */
module Schemas {
  import opened Common
  import opened Calendar

  datatype Product = Product(
    id: string,
    userId: string,
    name: string,
    sku: string,
    category: string,
    stock: real,
    cost: real,
    price: real,
    minStock: real,
    barcode: Option<string>,
    isActive: bool,
    createdAt: int)

  /** A sale is written once by the sale workflow and never changed: it keeps
      its own snapshot of the product's name. */
  datatype Sale = Sale(
    id: string,
    userId: string,
    productId: string,
    productName: string,
    quantity: real,
    price: real,
    total: real,
    customer: Option<string>,
    saleDate: DateTime)

  /** The bounds the product DTO enforces (all four amounts at least 0). */
  predicate AmountsNonNegative(p: Product)
  {
    p.stock >= 0.0 && p.cost >= 0.0 && p.price >= 0.0 && p.minStock >= 0.0
  }

  function SaleTime(s: Sale): real
  {
    s.saleDate.time as real
  }

  function TotalOf(s: Sale): real
  {
    s.total
  }

  function QuantityOf(s: Sale): real
  {
    s.quantity
  }
}
