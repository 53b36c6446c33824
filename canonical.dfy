/** The catalogue's one entity, the Product record shared by every layer. */
module Canonical {

  /** A float32 price, kept as its IEEE-754 bit pattern: prices are only ever copied. */
  type Float32 = bv32

  /** Go's `int` on the 64-bit targets the service is built for. */
  newtype Int64 = x: int | -0x8000_0000_0000_0000 <= x < 0x8000_0000_0000_0000

  /** An instant, in nanoseconds since Go's zero `time.Time` (which is 0). */
  type Timestamp = nat

  /** One catalogue record; `id` is the document's `_id`. */
  datatype Product = Product(
    id: string,
    name: string,
    category: string,
    price: Float32,
    stock: Int64,
    createdAt: Timestamp)

  /** The zero value `canonical.Product{}` that every failing operation returns. */
  const Empty: Product := Product("", "", "", 0, 0, 0)
}
