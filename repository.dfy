/**
 * The persistence gateway: the products collection of the document store,
 * seen as a table from `_id` to Product, and the six operations the service
 * calls on it. Every driver call takes the failure the store produced for it
 * (`None` when the call went through), so a store failure is an outcome the
 * environment chooses.
 */
module Repositories {
  import opened Canonical
  import opened Errors

  /** Every document is stored under its own `_id`. */
  ghost predicate IsTable(m: map<string, Product>)
  {
    forall k | k in m :: m[k].id == k
  }

  /** The keys of the documents whose `category` is exactly `category`. */
  ghost function CategoryKeys(m: map<string, Product>, category: string): set<string>
  {
    set k | k in m && m[k].category == category
  }

  /** The ids that occur in a sequence of products. */
  ghost function Ids(ps: seq<Product>): set<string>
  {
    set i | 0 <= i < |ps| :: ps[i].id
  }

  ghost predicate DistinctIds(ps: seq<Product>)
  {
    forall i, j | 0 <= i < j < |ps| :: ps[i].id != ps[j].id
  }

  /**
   * `ps` lists the stored documents under `keys`, each exactly once, in
   * whatever order the store's cursor yields them.
   */
  ghost predicate IsListing(ps: seq<Product>, m: map<string, Product>, keys: set<string>)
  {
    && DistinctIds(ps)
    && Ids(ps) == keys
    && forall i | 0 <= i < |ps| :: ps[i].id in m && m[ps[i].id] == ps[i]
  }

  /** The `$set` update: `name`, `category` and `price` come from `fields`, the rest is kept. */
  function SetFields(stored: Product, fields: Product): (r: Product)
    ensures r.id == stored.id && r.stock == stored.stock && r.createdAt == stored.createdAt
    ensures r.name == fields.name && r.category == fields.category && r.price == fields.price
  {
    stored.(name := fields.name, category := fields.category, price := fields.price)
  }

  /**
   * The creation time as the store keeps it: a BSON datetime holds whole
   * milliseconds, so the nanoseconds below the millisecond are dropped.
   */
  function StoredTime(t: Timestamp): (s: Timestamp)
    ensures s <= t < s + 1_000_000 && s % 1_000_000 == 0
    ensures s == t <==> t % 1_000_000 == 0
  {
    t - t % 1_000_000
  }

  /** The document the store holds for an inserted product: only the creation time changes. */
  function AsStored(p: Product): (r: Product)
    ensures r.id == p.id && r.name == p.name && r.category == p.category
    ensures r.price == p.price && r.stock == p.stock
    ensures r.createdAt == StoredTime(p.createdAt)
    ensures r == p <==> p.createdAt % 1_000_000 == 0
  {
    p.(createdAt := StoredTime(p.createdAt))
  }

  /** The products of `ps` whose category is `category`, in order. */
  function FilterByCategory(ps: seq<Product>, category: string): seq<Product>
  {
    if ps == [] then []
    else if ps[0].category == category then [ps[0]] + FilterByCategory(ps[1..], category)
    else FilterByCategory(ps[1..], category)
  }

  /** A write the repository was asked to perform, as the service issued it. */
  datatype WriteCall =
    | Create(product: Product)
    | Update(id: string, product: Product)
    | Delete(id: string)

  class Repository {
    /** The products collection, keyed by `_id`. */
    var collection: map<string, Product>
    /** Every write call made on this repository, in order, whether or not it succeeded. */
    ghost var calls: seq<WriteCall>

    ghost predicate Valid()
      reads this
    {
      IsTable(collection)
    }

    /** A handle on a collection that already holds `documents`. */
    constructor (documents: map<string, Product>)
      requires IsTable(documents)
      ensures Valid() && collection == documents && calls == []
    {
      collection := documents;
      calls := [];
    }

    /** Every stored product, each once; nothing on a store failure. */
    method GetAllProducts(failure: Option<string>) returns (products: seq<Product>, err: Option<Error>)
      requires Valid()
      ensures err == Reported(failure)
      ensures failure.Some? ==> products == []
      ensures failure.None? ==> IsListing(products, collection, collection.Keys)
    {
      if failure.Some? {
        return [], Reported(failure);
      }
      products := [];
      var pending := collection.Keys;
      while pending != {}
        invariant pending <= collection.Keys
        invariant DistinctIds(products)
        invariant Ids(products) == collection.Keys - pending
        invariant forall i | 0 <= i < |products| :: products[i].id in collection && collection[products[i].id] == products[i]
        decreases pending
      {
        var key :| key in pending;
        IdsAppend(products, collection[key]);
        products := products + [collection[key]];
        pending := pending - {key};
      }
      err := None;
    }

    /** Every stored product whose category is exactly `category`, each once. */
    method GetProductsByCategory(category: string, failure: Option<string>) returns (products: seq<Product>, err: Option<Error>)
      requires Valid()
      ensures err == Reported(failure)
      ensures failure.Some? ==> products == []
      ensures failure.None? ==> IsListing(products, collection, CategoryKeys(collection, category))
    {
      if failure.Some? {
        return [], Reported(failure);
      }
      products := [];
      var pending := collection.Keys;
      while pending != {}
        invariant pending <= collection.Keys
        invariant DistinctIds(products)
        invariant Ids(products) == CategoryKeys(collection, category) - pending
        invariant forall i | 0 <= i < |products| :: products[i].id in collection && collection[products[i].id] == products[i]
        decreases pending
      {
        var key :| key in pending;
        if collection[key].category == category {
          IdsAppend(products, collection[key]);
          products := products + [collection[key]];
        }
        pending := pending - {key};
      }
      err := None;
    }

    /** The product stored under `id`; the empty product and an error when there is none. */
    method GetProductById(id: string, failure: Option<string>) returns (product: Product, err: Option<Error>)
      requires Valid()
      ensures failure.Some? ==> product == Empty && err == Reported(failure)
      ensures failure.None? && id in collection ==> product == collection[id] && err == None
      ensures failure.None? && id !in collection ==> product == Empty && err == Some(NoDocuments)
      ensures err.None? ==> product.id == id
    {
      if failure.Some? {
        return Empty, Reported(failure);
      }
      if id !in collection {
        return Empty, Some(NoDocuments);
      }
      product, err := collection[id], None;
    }

    /**
     * Inserts `product` under its own id, its creation time cut to whole
     * milliseconds, and returns `product` as given; an existing id is a write error.
     */
    method CreateProduct(product: Product, failure: Option<string>) returns (created: Product, err: Option<Error>)
      requires Valid()
      modifies this
      ensures Valid()
      ensures calls == old(calls) + [Create(product)]
      ensures failure.Some? ==> created == Empty && err == Reported(failure) && collection == old(collection)
      ensures failure.None? && product.id in old(collection) ==>
        created == Empty && err == Some(DuplicateKey(product.id)) && collection == old(collection)
      ensures failure.None? && product.id !in old(collection) ==>
        created == product && err == None && collection == old(collection)[product.id := AsStored(product)]
    {
      calls := calls + [Create(product)];
      if failure.Some? {
        return Empty, Reported(failure);
      }
      if product.id in collection {
        return Empty, Some(DuplicateKey(product.id));
      }
      collection := collection[product.id := AsStored(product)];
      created, err := product, None;
    }

    /**
     * Sets `name`, `category` and `price` of the product stored under `id` from
     * `product`, and returns `product` itself. No match is not an error.
     */
    method UpdateProduct(id: string, product: Product, failure: Option<string>) returns (updated: Product, err: Option<Error>)
      requires Valid()
      modifies this
      ensures Valid()
      ensures calls == old(calls) + [Update(id, product)]
      ensures failure.Some? ==> updated == Empty && err == Reported(failure) && collection == old(collection)
      ensures failure.None? ==> updated == product && err == None
      ensures failure.None? && id in old(collection) ==>
        collection == old(collection)[id := SetFields(old(collection)[id], product)]
      ensures failure.None? && id !in old(collection) ==> collection == old(collection)
    {
      calls := calls + [Update(id, product)];
      if failure.Some? {
        return Empty, Reported(failure);
      }
      if id in collection {
        collection := collection[id := SetFields(collection[id], product)];
      }
      updated, err := product, None;
    }

    /** Removes the product stored under `id`; no match is not an error. */
    method DeleteProduct(id: string, failure: Option<string>) returns (err: Option<Error>)
      requires Valid()
      modifies this
      ensures Valid()
      ensures calls == old(calls) + [Delete(id)]
      ensures err == Reported(failure)
      ensures failure.Some? ==> collection == old(collection)
      ensures failure.None? ==> collection == old(collection) - {id}
    {
      calls := calls + [Delete(id)];
      if failure.Some? {
        return Reported(failure);
      }
      collection := collection - {id};
      err := None;
    }
  }

  /** Appending a product adds exactly its id to the ids of a sequence. */
  lemma IdsAppend(ps: seq<Product>, p: Product)
    ensures Ids(ps + [p]) == Ids(ps) + {p.id}
  {
    var qs := ps + [p];
    assert qs[|ps|].id == p.id;
    forall i | 0 <= i < |ps| ensures qs[i].id == ps[i].id { }
  }

  /** Distinct ids make the id set exactly as large as the sequence. */
  lemma {:induction false} DistinctIdsCount(ps: seq<Product>)
    requires DistinctIds(ps)
    ensures |Ids(ps)| == |ps|
  {
    if ps != [] {
      var init := ps[..|ps| - 1];
      var last := ps[|ps| - 1];
      assert ps == init + [last];
      DistinctIdsCount(init);
      IdsAppend(init, last);
      assert last.id !in Ids(init);
    }
  }

  /** A listing holds as many products as it has keys. */
  lemma ListingSize(ps: seq<Product>, m: map<string, Product>, keys: set<string>)
    requires IsListing(ps, m, keys)
    ensures |ps| == |keys|
  {
    DistinctIdsCount(ps);
  }

  /** Prepending a product adds exactly its id to the ids of a sequence. */
  lemma IdsPrepend(p: Product, ps: seq<Product>)
    ensures Ids([p] + ps) == {p.id} + Ids(ps)
  {
    var qs := [p] + ps;
    assert qs[0] == p;
    forall i | 0 <= i < |ps| ensures ps[i].id in Ids(qs) {
      assert qs[i + 1] == ps[i];
    }
    forall i | 0 <= i < |qs| ensures qs[i].id in {p.id} + Ids(ps) {
      if i > 0 { assert qs[i] == ps[i - 1]; }
    }
  }

  /** Dropping the product at `j` from a listing lists the other keys. */
  lemma ListingWithout(qs: seq<Product>, j: nat, m: map<string, Product>, keys: set<string>)
    requires IsListing(qs, m, keys) && j < |qs|
    ensures IsListing(qs[..j] + qs[j + 1..], m, keys - {qs[j].id})
  {
    var rest := qs[..j] + qs[j + 1..];
    forall i | 0 <= i < |rest|
      ensures rest[i] == qs[if i < j then i else i + 1]
    { }
    forall i | 0 <= i < |qs| && i != j
      ensures qs[i].id in Ids(rest)
    {
      if i < j { assert rest[i] == qs[i]; } else { assert rest[i - 1] == qs[i]; }
    }
  }

  /** Removing the element at `j` removes one occurrence of it from the multiset. */
  lemma MultisetWithout(qs: seq<Product>, j: nat)
    requires j < |qs|
    ensures multiset(qs) == multiset(qs[..j] + qs[j + 1..]) + multiset{qs[j]}
  {
    assert qs == qs[..j] + [qs[j]] + qs[j + 1..];
  }

  /** Two listings of the same keys hold the same products: they differ at most in order. */
  lemma {:induction false} ListingsArePermutations(ps: seq<Product>, qs: seq<Product>, m: map<string, Product>, keys: set<string>)
    requires IsListing(ps, m, keys) && IsListing(qs, m, keys)
    ensures multiset(ps) == multiset(qs)
  {
    if ps == [] {
      assert keys == {};
      ListingSize(qs, m, keys);
      assert qs == [];
    } else {
      var p := ps[0];
      assert p.id in Ids(qs);
      var j :| 0 <= j < |qs| && qs[j].id == p.id;
      assert qs[j] == m[p.id] == p;
      ListingWithout(ps, 0, m, keys);
      ListingWithout(qs, j, m, keys);
      MultisetWithout(qs, j);
      assert ps[..0] + ps[1..] == ps[1..];
      assert ps == [p] + ps[1..];
      ListingsArePermutations(ps[1..], qs[..j] + qs[j + 1..], m, keys - {p.id});
      assert multiset(ps) == multiset(ps[1..]) + multiset{p};
      assert multiset(qs) == multiset(qs[..j] + qs[j + 1..]) + multiset{p};
    }
  }

  /** A category listing is empty exactly when no stored product has that category. */
  lemma CategoryListingEmpty(ps: seq<Product>, m: map<string, Product>, category: string)
    requires IsListing(ps, m, CategoryKeys(m, category))
    ensures ps == [] <==> forall k | k in m :: m[k].category != category
  {
    if ps != [] {
      assert ps[0].id in Ids(ps);
    } else {
      forall k | k in m ensures m[k].category != category {
        assert k !in CategoryKeys(m, category);
      }
    }
  }

  /**
   * Filtering a listing of some keys by category lists exactly the keys of that
   * category: the by-category query agrees with filtering the full listing.
   */
  lemma {:induction false} FilterOfListing(ps: seq<Product>, m: map<string, Product>, keys: set<string>, category: string)
    requires IsListing(ps, m, keys)
    ensures IsListing(FilterByCategory(ps, category), m, set k | k in keys && m[k].category == category)
  {
    if ps != [] {
      var p := ps[0];
      var tail := ps[1..];
      var smaller := keys - {p.id};
      ListingWithout(ps, 0, m, keys);
      assert ps[..0] + ps[1..] == tail;
      FilterOfListing(tail, m, smaller, category);
      var ft := FilterByCategory(tail, category);
      assert p.id !in Ids(ft);
      if p.category == category {
        assert FilterByCategory(ps, category) == [p] + ft;
        IdsPrepend(p, ft);
        var r := [p] + ft;
        forall i | 0 <= i < |ft| ensures r[i + 1] == ft[i] { }
      }
    }
  }

  /** The category filter of the full listing is a listing of that category's keys. */
  lemma AllFilteredIsByCategory(ps: seq<Product>, m: map<string, Product>, category: string)
    requires IsListing(ps, m, m.Keys)
    ensures IsListing(FilterByCategory(ps, category), m, CategoryKeys(m, category))
  {
    FilterOfListing(ps, m, m.Keys, category);
  }
}
