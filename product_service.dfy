/**
 * The product service: a facade over the product store that memoizes searches by criteria
 * and drops every memoized result whenever the store changes.
 */
module Catalog {
  import opened Wrappers
  import opened JavaLong
  import opened ProductModel
  import opened Criteria
  import opened ProductRepository
  import opened AuditRepository
  import opened Services

  /** Audit action written when a search has to go to the store. */
  const LOG_CACHE_MISS: string := "CACHE_MISS: Выполняем поиск в репозитории"
  /** Audit action written when a non-empty cache is dropped. */
  const LOG_CACHE_INVALIDATED: string := "CACHE_INVALIDATED"

  class ProductService {
    const productRepository: InMemoryProductRepository
    const auditService: AuditService
    /** Search results by criteria. */
    var searchCache: map<SearchCriteria, seq<ProductRecord>>

    /** Every cached result is what the store's search returns for its criteria right now. */
    ghost predicate Coherent()
      reads this, productRepository
    {
      forall c :: c in searchCache ==> productRepository.Search(c) == Success(searchCache[c])
    }

    ghost predicate Valid()
      reads this, productRepository
    {
      productRepository.Valid() && Coherent()
    }

    /** The trail the service's audit entries go to. */
    ghost function Trail(): seq<string>
      reads auditService.auditRepository
    {
      auditService.auditRepository.auditLog
    }

    /** Starts with an empty cache. */
    constructor (productRepository: InMemoryProductRepository, auditService: AuditService)
      requires productRepository.Valid()
      ensures this.productRepository == productRepository && this.auditService == auditService
      ensures searchCache == map[] && Valid()
    {
      this.productRepository := productRepository;
      this.auditService := auditService;
      searchCache := map[];
    }

    /**
     * Drops every cached result. Only a non-empty cache is cleared and logged, so
     * invalidating an empty cache writes nothing and changes nothing.
     */
    method InvalidateCache(now: string)
      modifies this, auditService.auditRepository
      ensures auditService.CurrentActor() == old(auditService.CurrentActor())
      ensures searchCache == map[]
      ensures old(searchCache) == map[] ==> Trail() == old(Trail())
      ensures old(searchCache) != map[] ==>
                Trail() == old(Trail()) + [FormatEntry(now, auditService.CurrentActor(), LOG_CACHE_INVALIDATED)]
    {
      if searchCache != map[] {
        searchCache := map[];
        auditService.LogAction(LOG_CACHE_INVALIDATED, now);
      }
    }

    /**
     * Saves through the store, then invalidates the cache, and returns what the store
     * returned: the same product, with its id assigned if it was new.
     */
    method AddProduct(product: Product, now: string) returns (saved: Product)
      requires Valid()
      modifies this, productRepository, product, auditService.auditRepository
      ensures auditService.CurrentActor() == old(auditService.CurrentActor())
      ensures Valid() && searchCache == map[]
      ensures saved == product
      ensures old(product.id) == 0 ==>
                productRepository.idCounter == IncrementAndGet(old(productRepository.idCounter)) &&
                product.id == productRepository.idCounter
      ensures old(product.id) != 0 ==>
                product.id == old(product.id) && productRepository.idCounter == old(productRepository.idCounter)
      ensures product.Value() == old(product.Value()).(id := product.id)
      ensures productRepository.storage == old(productRepository.storage)[product.id := product.Value()]
      ensures old(searchCache) == map[] ==> Trail() == old(Trail())
      ensures old(searchCache) != map[] ==>
                Trail() == old(Trail()) + [FormatEntry(now, auditService.CurrentActor(), LOG_CACHE_INVALIDATED)]
    {
      saved := productRepository.Save(product);
      InvalidateCache(now);
    }

    /** The same as adding: the store decides by the id whether it inserts or overwrites. */
    method UpdateProduct(product: Product, now: string) returns (updated: Product)
      requires Valid()
      modifies this, productRepository, product, auditService.auditRepository
      ensures auditService.CurrentActor() == old(auditService.CurrentActor())
      ensures Valid() && searchCache == map[]
      ensures updated == product
      ensures old(product.id) == 0 ==>
                productRepository.idCounter == IncrementAndGet(old(productRepository.idCounter)) &&
                product.id == productRepository.idCounter
      ensures old(product.id) != 0 ==>
                product.id == old(product.id) && productRepository.idCounter == old(productRepository.idCounter)
      ensures product.Value() == old(product.Value()).(id := product.id)
      ensures productRepository.storage == old(productRepository.storage)[product.id := product.Value()]
      ensures old(searchCache) == map[] ==> Trail() == old(Trail())
      ensures old(searchCache) != map[] ==>
                Trail() == old(Trail()) + [FormatEntry(now, auditService.CurrentActor(), LOG_CACHE_INVALIDATED)]
    {
      updated := productRepository.Save(product);
      InvalidateCache(now);
    }

    /** Deletes through the store, then invalidates the cache. */
    method DeleteProduct(id: Long, now: string)
      requires Valid()
      modifies this, productRepository, auditService.auditRepository
      ensures auditService.CurrentActor() == old(auditService.CurrentActor())
      ensures Valid() && searchCache == map[]
      ensures productRepository.storage == old(productRepository.storage) - {id}
      ensures productRepository.idCounter == old(productRepository.idCounter)
      ensures old(searchCache) == map[] ==> Trail() == old(Trail())
      ensures old(searchCache) != map[] ==>
                Trail() == old(Trail()) + [FormatEntry(now, auditService.CurrentActor(), LOG_CACHE_INVALIDATED)]
    {
      productRepository.DeleteById(id);
      InvalidateCache(now);
    }

    /** A straight lookup in the store; the cache is not consulted and nothing changes. */
    method GetProductById(id: Long) returns (r: Option<ProductRecord>)
      ensures r == productRepository.FindById(id)
      ensures r.Some? <==> id in productRepository.storage
    {
      r := productRepository.FindById(id);
    }

    /** Every stored product, straight from the store; nothing changes. */
    method GetAllProducts() returns (r: seq<ProductRecord>)
      ensures r == productRepository.FindAll()
      ensures |r| == |productRepository.storage|
      ensures forall p :: p in r <==> p in productRepository.storage.Values
    {
      r := productRepository.FindAll();
    }

    /**
     * A hit returns the cached list and writes nothing. A miss writes one CACHE_MISS entry,
     * asks the store, and caches a successful result under the criteria; a search that throws
     * caches nothing. Either way the answer is what the store's search gives now.
     */
    method SearchProducts(criteria: SearchCriteria, now: string) returns (r: Result<seq<ProductRecord>, SearchError>)
      requires Valid()
      modifies this, auditService.auditRepository
      ensures auditService.CurrentActor() == old(auditService.CurrentActor())
      ensures Valid()
      ensures r == productRepository.Search(criteria)
      ensures criteria in old(searchCache) ==>
                r == Success(old(searchCache)[criteria]) && searchCache == old(searchCache) && Trail() == old(Trail())
      ensures criteria !in old(searchCache) ==>
                Trail() == old(Trail()) + [FormatEntry(now, auditService.CurrentActor(), LOG_CACHE_MISS)]
      ensures criteria !in old(searchCache) && r.Success? ==> searchCache == old(searchCache)[criteria := r.value]
      ensures criteria !in old(searchCache) && r.Failure? ==> searchCache == old(searchCache)
    {
      if criteria in searchCache {
        r := Success(searchCache[criteria]);
      } else {
        ghost var entry := FormatEntry(now, auditService.CurrentActor(), LOG_CACHE_MISS);
        auditService.LogAction(LOG_CACHE_MISS, now);
        assert Trail() == old(Trail()) + [entry];
        r := productRepository.Search(criteria);
        if r.Success? {
          searchCache := searchCache[criteria := r.value];
        }
      }
    }
  }

  /**
   * Two searches with equal criteria and no change in between both return the same answer.
   * If the first search succeeds, the second is answered from the cache and the pair writes one
   * CACHE_MISS entry; a failing search caches nothing, so the second one misses again.
   */
  method SearchTwice(service: ProductService, first: SearchCriteria, second: SearchCriteria, t1: string, t2: string)
    returns (r1: Result<seq<ProductRecord>, SearchError>, r2: Result<seq<ProductRecord>, SearchError>)
    requires service.Valid() && first == second && first !in service.searchCache
    modifies service, service.auditService.auditRepository
    ensures r1 == r2
    ensures r1.Success? ==>
              service.Trail() == old(service.Trail()) + [FormatEntry(t1, service.auditService.CurrentActor(), LOG_CACHE_MISS)]
  {
    r1 := service.SearchProducts(first, t1);
    r2 := service.SearchProducts(second, t2);
  }

  /**
   * Search, add a product, search again with the same criteria, all on behalf of one actor:
   * the add drops the cached result, so the store is asked twice, and the trail gets two
   * CACHE_MISS entries around one CACHE_INVALIDATED.
   */
  method SearchAddSearch(service: ProductService, criteria: SearchCriteria, product: Product, actor: string,
                         t1: string, t2: string, t3: string)
    returns (before: Result<seq<ProductRecord>, SearchError>, after: Result<seq<ProductRecord>, SearchError>)
    requires service.Valid() && service.searchCache == map[]
    requires service.productRepository.Search(criteria).Success?
    requires service.auditService.CurrentActor() == actor
    modifies service, service.productRepository, product, service.auditService.auditRepository
    ensures service.Trail() == old(service.Trail()) +
              [FormatEntry(t1, actor, LOG_CACHE_MISS), FormatEntry(t2, actor, LOG_CACHE_INVALIDATED), FormatEntry(t3, actor, LOG_CACHE_MISS)]
  {
    ghost var trail0 := service.Trail();
    before := service.SearchProducts(criteria, t1);
    assert criteria in service.searchCache;
    ghost var trail1 := service.Trail();
    var saved := service.AddProduct(product, t2);
    ghost var trail2 := service.Trail();
    after := service.SearchProducts(criteria, t3);
    AppendedInTurn(trail0, trail1, trail2, service.Trail(),
                   FormatEntry(t1, actor, LOG_CACHE_MISS), FormatEntry(t2, actor, LOG_CACHE_INVALIDATED), FormatEntry(t3, actor, LOG_CACHE_MISS));
  }

  /** Three single appends in turn are one append of the three entries. */
  lemma AppendedInTurn(trail0: seq<string>, trail1: seq<string>, trail2: seq<string>, trail3: seq<string>,
                       e1: string, e2: string, e3: string)
    requires trail1 == trail0 + [e1] && trail2 == trail1 + [e2] && trail3 == trail2 + [e3]
    ensures trail3 == trail0 + [e1, e2, e3]
  {
  }

  /**
   * A search right after an add, whatever was cached before the add, sees the added
   * product whenever it matches the criteria: no stale list survives the add.
   */
  method AddThenSearch(service: ProductService, criteria: SearchCriteria, product: Product, t1: string, t2: string)
    returns (after: Result<seq<ProductRecord>, SearchError>)
    requires service.Valid()
    modifies service, service.productRepository, product, service.auditService.auditRepository
    ensures after.Success? && Matches(product.Value(), criteria) ==> product.Value() in after.value
  {
    var saved := service.AddProduct(product, t1);
    assert service.productRepository.storage[product.id] == product.Value();
    after := service.SearchProducts(criteria, t2);
  }
}
