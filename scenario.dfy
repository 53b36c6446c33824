/**
 * A client of the three layers that follows one product through its life:
 * created from a request, listed, read back, updated, deleted, and then no
 * longer found; and a delete of an unknown id that writes nothing. The
 * creation time is a nanosecond reading: the product read back carries it to
 * the millisecond, the response to the second.
 * The prices are float32 bit patterns: 0x411F_D70A is 9.99, 0x416F_D70A is 14.99.
 */
module Scenarios {
  import opened Canonical
  import opened Errors
  import opened Repositories
  import opened Services
  import opened Rest

  method ProductLifecycle()
  {
    var repo := new Repository(map[]);
    var service := new Service(repo);

    var created, err := service.CreateProduct(ToCanonical(ProductRequest("Widget", "tools", 0x411F_D70A, 5)), "id-1", 1_700_000_000_123_456_789, None);
    assert err == None;
    assert ToResponse(created) == ProductResponse("id-1", "Widget", "tools", 0x411F_D70A, 5, 1_700_000_000_000_000_000);

    var all, listErr := service.GetAllProducts(None);
    assert listErr == None;
    assert "id-1" in Ids(all);
    ListingSize(all, repo.collection, repo.collection.Keys);
    assert all == [AsStored(created)];

    var tools, toolsErr := service.GetProductsByCategory("tools", None);
    assert CategoryKeys(repo.collection, "tools") == {"id-1"};
    ListingSize(tools, repo.collection, CategoryKeys(repo.collection, "tools"));
    assert tools == [AsStored(created)];

    var fetched, getErr := service.GetProductById("id-1", None);
    assert getErr == None && fetched != created;
    assert fetched == created.(createdAt := 1_700_000_000_123_000_000);

    var updated, updErr := service.UpdateProduct("id-1", ToCanonical(ProductRequest("Widget Pro", "tools", 0x416F_D70A, 0)), None);
    assert updErr == None && updated.id == "";
    fetched, getErr := service.GetProductById("id-1", None);
    assert fetched == Product("id-1", "Widget Pro", "tools", 0x416F_D70A, 5, 1_700_000_000_123_000_000);

    var delErr := service.DeleteProduct("id-1", None, None);
    assert delErr == None;
    fetched, getErr := service.GetProductById("id-1", None);
    assert getErr == Some(NoDocuments) && fetched == Empty;

    ghost var writes := repo.calls;
    delErr := service.DeleteProduct("unknown-id", None, None);
    assert delErr == Some(NoDocuments);
    assert repo.calls == writes && repo.collection == map[];
  }
}
