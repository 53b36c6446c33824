/**
 * The orchestration service: the only layer with business rules. It stamps new
 * products with a generated id and the current time, guards deletion with a
 * lookup, and otherwise hands the repository's results and errors through,
 * replacing the value by an empty one whenever there is an error.
 *
 * The id generator and the clock are parameters (`newId`, `now`); each
 * repository call takes the store failure, if any, that it meets.
 */
module Services {
  import opened Canonical
  import opened Errors
  import opened Repositories

  class Service {
    const repo: Repository

    ghost predicate Valid()
      reads repo
    {
      repo.Valid()
    }

    /** A service over the given repository. */
    constructor (repo: Repository)
      requires repo.Valid()
      ensures this.repo == repo && Valid()
    {
      this.repo := repo;
    }

    /** All stored products, or no products and the repository's error unchanged. */
    method GetAllProducts(failure: Option<string>) returns (products: seq<Product>, err: Option<Error>)
      requires Valid()
      ensures err == Reported(failure)
      ensures err.Some? ==> products == []
      ensures err.None? ==> IsListing(products, repo.collection, repo.collection.Keys)
    {
      var found, e := repo.GetAllProducts(failure);
      if e.Some? {
        return [], e;
      }
      products, err := found, None;
    }

    /** The stored products of one category, or no products and the repository's error unchanged. */
    method GetProductsByCategory(category: string, failure: Option<string>) returns (products: seq<Product>, err: Option<Error>)
      requires Valid()
      ensures err == Reported(failure)
      ensures err.Some? ==> products == []
      ensures err.None? ==> IsListing(products, repo.collection, CategoryKeys(repo.collection, category))
    {
      var found, e := repo.GetProductsByCategory(category, failure);
      if e.Some? {
        return [], e;
      }
      products, err := found, None;
    }

    /** The product stored under `id`, or the empty product and the repository's error unchanged. */
    method GetProductById(id: string, failure: Option<string>) returns (product: Product, err: Option<Error>)
      requires Valid()
      ensures failure.Some? ==> product == Empty && err == Reported(failure)
      ensures failure.None? && id in repo.collection ==> product == repo.collection[id] && err == None
      ensures failure.None? && id !in repo.collection ==> product == Empty && err == Some(NoDocuments)
      ensures err.None? ==> product.id == id
    {
      var found, e := repo.GetProductById(id, failure);
      if e.Some? {
        return Empty, e;
      }
      product, err := found, None;
    }

    /**
     * Stores `product` under the fresh id `newId`, stamped with `now`. Whatever
     * id and creation time the caller put in `product` are discarded. The product
     * returned carries `now` in full; the stored one carries it to the millisecond.
     */
    method CreateProduct(product: Product, newId: string, now: Timestamp, failure: Option<string>)
      returns (created: Product, err: Option<Error>)
      requires Valid() && newId != ""
      modifies repo
      ensures Valid()
      ensures repo.calls == old(repo.calls) + [Create(product.(id := newId, createdAt := now))]
      ensures err.None? <==> failure.None? && newId !in old(repo.collection)
      ensures failure.Some? ==> err == Reported(failure)
      ensures failure.None? && newId in old(repo.collection) ==> err == Some(DuplicateKey(newId))
      ensures err.Some? ==> created == Empty && repo.collection == old(repo.collection)
      ensures err.None? ==>
        && created.id == newId && created.createdAt == now
        && created.name == product.name && created.category == product.category
        && created.price == product.price && created.stock == product.stock
        && repo.collection == old(repo.collection)[newId := AsStored(created)]
    {
      var stamped := product;
      stamped := stamped.(id := newId);
      stamped := stamped.(createdAt := now);
      var stored, e := repo.CreateProduct(stamped, failure);
      if e.Some? {
        return Empty, e;
      }
      created, err := stored, None;
    }

    /**
     * Forwards `id` and `product` to the repository untouched, with no check
     * that `id` exists, and returns what it returns.
     */
    method UpdateProduct(id: string, product: Product, failure: Option<string>) returns (updated: Product, err: Option<Error>)
      requires Valid()
      modifies repo
      ensures Valid()
      ensures repo.calls == old(repo.calls) + [Update(id, product)]
      ensures err == Reported(failure)
      ensures err.Some? ==> updated == Empty && repo.collection == old(repo.collection)
      ensures err.None? ==> updated == product
      ensures err.None? && id in old(repo.collection) ==>
        repo.collection == old(repo.collection)[id := SetFields(old(repo.collection)[id], product)]
      ensures err.None? && id !in old(repo.collection) ==> repo.collection == old(repo.collection)
    {
      var stored, e := repo.UpdateProduct(id, product, failure);
      if e.Some? {
        return Empty, e;
      }
      updated, err := stored, None;
    }

    /**
     * Looks `id` up first and deletes only when the lookup succeeded with a
     * product whose id is not empty. A failed lookup's error is returned as is.
     */
    method DeleteProduct(id: string, lookupFailure: Option<string>, deleteFailure: Option<string>) returns (err: Option<Error>)
      requires Valid()
      modifies repo
      ensures Valid()
      ensures lookupFailure.Some? ==>
        err == Reported(lookupFailure) && repo.calls == old(repo.calls) && repo.collection == old(repo.collection)
      ensures lookupFailure.None? && id !in old(repo.collection) ==>
        err == Some(NoDocuments) && repo.calls == old(repo.calls) && repo.collection == old(repo.collection)
      ensures err == Some(ProductNotFound) <==> lookupFailure.None? && id == "" && id in old(repo.collection)
      ensures err == Some(ProductNotFound) ==> repo.calls == old(repo.calls) && repo.collection == old(repo.collection)
      ensures lookupFailure.None? && id != "" && id in old(repo.collection) ==>
        && repo.calls == old(repo.calls) + [Delete(id)]
        && err == Reported(deleteFailure)
        && repo.collection == if deleteFailure.None? then old(repo.collection) - {id} else old(repo.collection)
    {
      var product, e := repo.GetProductById(id, lookupFailure);
      if e.Some? {
        return e;
      }
      if product.id == "" {
        return Some(ProductNotFound);
      }
      err := repo.DeleteProduct(id, deleteFailure);
      if err.Some? {
        return err;
      }
      err := None;
    }
  }
}
