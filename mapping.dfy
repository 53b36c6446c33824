/**
 * The HTTP layer's request and response bodies and the two functions that
 * convert them to and from the canonical Product.
 */
module Rest {
  import opened Canonical

  /** The body of a create or update request: no id, no creation time. */
  datatype ProductRequest = ProductRequest(
    name: string,
    category: string,
    price: Float32,
    stock: Int64)

  /**
   * The body of a response. Its creation time is the instant that the RFC 3339
   * text denotes, which has whole seconds only.
   */
  datatype ProductResponse = ProductResponse(
    id: string,
    name: string,
    category: string,
    price: Float32,
    stock: Int64,
    createdAt: Timestamp)

  /**
   * The canonical product a request describes. Its id is empty and its creation
   * time is the zero instant: a request can never set either.
   */
  function ToCanonical(request: ProductRequest): (product: Product)
    ensures product.id == "" && product.createdAt == 0
    ensures product.name == request.name && product.category == request.category
    ensures product.price == request.price && product.stock == request.stock
  {
    Product("", request.name, request.category, request.price, request.stock, 0)
  }

  /** An instant cut to whole seconds, as RFC 3339 without fractional seconds renders it. */
  function WholeSeconds(t: Timestamp): (s: Timestamp)
    ensures s <= t < s + 1_000_000_000 && s % 1_000_000_000 == 0
  {
    t - t % 1_000_000_000
  }

  /**
   * The response body for a product: id, name, category, price and stock are
   * copied, the creation time is rendered to the second.
   */
  function ToResponse(product: Product): (response: ProductResponse)
    ensures response.id == product.id && response.name == product.name
    ensures response.category == product.category && response.price == product.price
    ensures response.stock == product.stock
    ensures response.createdAt <= product.createdAt < response.createdAt + 1_000_000_000
    ensures response.createdAt % 1_000_000_000 == 0
  {
    ProductResponse(product.id, product.name, product.category, product.price, product.stock, WholeSeconds(product.createdAt))
  }

  /** No request field is lost on the way in: equal products come from equal requests. */
  lemma ToCanonicalInjective(a: ProductRequest, b: ProductRequest)
    ensures ToCanonical(a) == ToCanonical(b) <==> a == b
  {
  }

  /**
   * Two products give the same response exactly when they agree on id, name,
   * category, price and stock and were created within the same second.
   */
  lemma SameResponse(p: Product, q: Product)
    ensures ToResponse(p) == ToResponse(q) <==>
      && p.id == q.id && p.name == q.name && p.category == q.category
      && p.price == q.price && p.stock == q.stock
      && p.createdAt / 1_000_000_000 == q.createdAt / 1_000_000_000
  {
  }

  /** Echoing a request straight back keeps its four fields and has no identity. */
  lemma EchoedRequest(request: ProductRequest)
    ensures ToResponse(ToCanonical(request)) ==
      ProductResponse("", request.name, request.category, request.price, request.stock, 0)
  {
  }
}
