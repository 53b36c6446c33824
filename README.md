# Products API: the catalogue core in Dafny

The products API keeps a catalogue of Product records (id, name, category,
price, stock, creation time) in a MongoDB collection and serves create, read,
update and delete requests over HTTP. This project models the three layers
under the HTTP routes:

- **Canonical** (`canonical.dfy`): the Product record. The float32 price is kept
  as its 32-bit pattern (it is only ever copied), the stock as a 64-bit integer,
  and the creation time as an instant in nanoseconds, with 0 as Go's zero time.
- **Errors** (`errors.dfy`): Go's `error` results as `Option<Error>`, where
  `None` is `nil`. The error kinds are a store failure, Mongo's "no documents"
  lookup error, Mongo's duplicate-key insert error, and the service's
  "product not found on db".
- **Repositories** (`repository.dfy`): the `Repository` class. Its
  `collection` field is a map from `_id` to Product. The six driver operations
  are methods that read or reassign that map. Each takes the failure the store
  produced for that call (`None` when it went through), so a store failure is
  an outcome chosen by the environment. A ghost `calls` log records every write
  the repository was asked to make, which lets the service's contracts say
  which writes it forwards and which it never issues.
- **Services** (`service.dfy`): the `Service` class, which holds
  the repository and applies the business rules. `CreateProduct` discards the
  caller's id and creation time and stamps a fresh id and the current time.
  `DeleteProduct` looks the id up first and deletes only after a successful
  lookup of a product with a non-empty id. Every other operation hands the
  repository's result through, or an empty value and the same error.
- **Rest** (`mapping.dfy`): the request and response bodies, and `ToCanonical`
  and `ToResponse` between them and Product.
- **Scenarios** (`scenario.dfy`): a client that takes one product from request
  to deletion and checks every step against the contracts above.

Behaviour worth knowing, as the code is written and as the contracts state it:

- A listing is specified by `IsListing`: each product appears once, the ids are
  exactly the selected keys, and each product is the stored document. The order
  is the store's. `ListingsArePermutations` shows that two listings can differ
  only in order.
- A lookup of an absent id fails with the store's "no documents" error, not
  with "product not found on db". The service's empty-id guard fires only for
  the id `""` when a document is stored under it. `DeleteProduct` states this
  as an if-and-only-if. Products created through the service never have that
  id.
- An update of an absent id, and a delete of an absent id, succeed and change
  nothing. An update writes `name`, `category` and `price` only, so `stock`
  cannot be changed after creation.
- An update returns the product it was given, not the stored one. Through the
  HTTP layer that is the request's product, so its id is empty. The scenario
  asserts this.
- The store keeps the creation time to the whole millisecond, because a BSON
  datetime holds milliseconds. So the product `CreateProduct` returns carries
  the clock reading in full, while the stored document, and every later read of
  it, carries that reading cut to the millisecond (`AsStored`). A response
  renders the time to the whole second. The scenario shows all three values.
- An insert under an id that is already stored fails with a duplicate-key
  error and changes nothing. The id of a stored product is therefore never
  reassigned (`Repository.Valid`).

## Model

| member | source | states |
|---|---|---|
| `Repositories.Repository.constructor` | internal/repositories/repository.go:32-34 | a repository is a handle on a collection whose documents are each stored under their own `_id` |
| `Repositories.Repository.GetAllProducts` | internal/repositories/repository.go:37-60 | on success, every stored product is listed exactly once and the error is nil; on a store failure, no products and that failure |
| `Repositories.Repository.GetProductsByCategory` | internal/repositories/repository.go:63-89 | on success, exactly the stored products whose category equals the argument, each once, with a nil error; on a store failure, no products and that failure |
| `Repositories.Repository.GetProductById` | internal/repositories/repository.go:91-106 | the product stored under the id, whose id is that id; the empty product with the "no documents" error when none is stored; the empty product and the failure on a store failure |
| `Repositories.StoredTime` | internal/repositories/repository.go:109 | the store keeps a creation time to the millisecond: the kept time is a whole millisecond at most one millisecond below the given one, and equals it exactly when the given time is a whole millisecond |
| `Repositories.AsStored` | internal/repositories/repository.go:109 | the inserted document keeps id, name, category, price and stock, and its creation time is cut to the millisecond; it equals the input exactly when the input's time is a whole millisecond |
| `Repositories.Repository.CreateProduct` | internal/repositories/repository.go:108-115 | stores the product under its id with its creation time cut to the millisecond, and returns the input unchanged; an already stored id, or a store failure, gives the empty product, an error and an unchanged collection |
| `Repositories.Repository.UpdateProduct` | internal/repositories/repository.go:117-134 | returns the input product, not the stored one; sets name, category and price of the document under the id and nothing else; an absent id succeeds and changes nothing; a store failure gives the empty product and changes nothing |
| `Repositories.Repository.DeleteProduct` | internal/repositories/repository.go:136-145 | removes the document under the id and keeps every other one; an absent id succeeds; a store failure changes nothing and returns that failure |
| `Repositories.SetFields` | internal/repositories/repository.go:119-125 | the `$set` update takes name, category and price from the new values and keeps the id, stock and creation time of the stored product |
| `Repositories.ListingSize` | internal/repositories/repository.go:45-54 | a listing has exactly as many products as there are selected documents |
| `Repositories.ListingsArePermutations` | internal/repositories/repository.go:45-54 | any two listings of the same documents are permutations of each other, so the cursor order is the only freedom |
| `Repositories.CategoryListingEmpty` | internal/repositories/repository.go:63-89 | the by-category result is empty exactly when no stored product has that category (an empty result is a success, not an error) |
| `Repositories.AllFilteredIsByCategory` | internal/repositories/repository.go:37-89 | filtering the full listing by category gives a listing of exactly that category's documents, so the two queries agree |
| `Services.Service.constructor` | internal/service/service.go:22-24 | a service holds one repository and keeps it for its lifetime |
| `Services.Service.GetAllProducts` | internal/service/service.go:32-40 | the repository's error unchanged with no products, or the repository's full listing with a nil error |
| `Services.Service.GetProductsByCategory` | internal/service/service.go:42-50 | the repository's error unchanged with no products, or exactly the products of that category with a nil error |
| `Services.Service.GetProductById` | internal/service/service.go:52-60 | the repository's error unchanged with the empty product, or the stored product under that id |
| `Services.Service.CreateProduct` | internal/service/service.go:62-73 | the repository receives the input with its id replaced by the fresh id and its creation time by the clock, and name, category, price and stock unchanged; on success that product is returned with the clock reading in full, and stored with the reading cut to the millisecond; on an error, the empty product and the repository's error unchanged |
| `Services.Service.UpdateProduct` | internal/service/service.go:75-83 | forwards the id and product unchanged, with no existence check, and returns the repository's result or the empty product with its error |
| `Services.Service.DeleteProduct` | internal/service/service.go:85-103 | looks up first; a failed lookup returns its error and issues no delete; "product not found on db" is returned, with no delete, exactly when the lookup found a product with an empty id; otherwise deletes that id and returns the delete's own result |
| `Rest.ToCanonical` | internal/channels/rest/mapping.go:9-16 | the product has an empty id and the zero creation time, so a request never sets identity or timestamp; name, category, price and stock are copied |
| `Rest.ToResponse` | internal/channels/rest/mapping.go:18-27 | the response carries the product's id, name, category, price and stock verbatim, and its creation time cut to the whole second, as RFC 3339 renders it |
| `Rest.ToCanonicalInjective` | internal/channels/rest/mapping.go:9-16 | two requests give the same product exactly when they are equal, so no request field is lost |
| `Rest.SameResponse` | internal/channels/rest/mapping.go:18-27 | two products give the same response exactly when they agree on id, name, category, price and stock and were created within the same second |
| `Rest.EchoedRequest` | internal/channels/rest/mapping.go:9-27 | a request mapped in and straight back out keeps name, category, price and stock, with an empty id and the zero time |

## Left out

- HTTP routing, request binding and status codes (`internal/channels/rest/rest.go`): transport plumbing. It maps every service error to status 500.
- Process startup and configuration (`cmd/main.go`), and the Mongo connection with its panic on failure (`repositories.New`). The repository is built over a given map instead.
- The Mongo driver itself: contexts, cursors, BSON encoding and decoding. A whole query either succeeds or fails with the failure its caller supplies. A failure partway through a cursor is one of those failures. On failure Go returns a nil slice; here that is the empty sequence.
- Logging with logrus: it has no observable effect on results.
- `uuid.NewString()` and `time.Now()`: the fresh id and the clock are parameters. The id is required to be non-empty, as a UUID string is. It is not required to be unused: a reused id gets the duplicate-key error.
- Rest.ToResponse: does not model the RFC 3339 text itself (digits, separators, zone offset), because that is library formatting; the response carries the instant the text denotes, to the whole second. As written, the line also assigns a string to a `time.Time` field.
- Time zones: an instant here has no location, so the store handing creation times back in UTC rather than in local time is not visible.
- Float32 values and their comparison: prices are only copied, so a price is its bit pattern.
- Concurrent requests: each operation is modelled as one atomic step on the map.
- The testify mocks (`internal/service/mock_test.go`): the ghost `calls` log stands in for the expectations they record.
