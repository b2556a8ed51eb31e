/**
 * The in-memory product store: products kept by id, an id counter for new products, and a
 * search that filters the stored products by the criteria.
 */
module ProductRepository {
  import opened Wrappers
  import opened ProductModel
  import opened Criteria
  import opened JavaLong
  import Text

  /** The exception the search can raise: a filter dereferences a null category or brand. */
  datatype SearchError = NullPointer

  /** Finds the least element of a non-empty set of ids. */
  lemma {:induction false} LeastId(ids: set<Long>) returns (least: Long)
    requires ids != {}
    ensures least in ids && forall k :: k in ids ==> least <= k
    decreases |ids|
  {
    var x :| x in ids;
    if ids == {x} {
      least := x;
    } else {
      var rest := ids - {x};
      var m := LeastId(rest);
      least := if x < m then x else m;
      forall k | k in ids
        ensures least <= k
      {
        if k != x {
          assert k in rest;
        }
      }
    }
  }

  /** A non-empty set of ids has a least element. */
  lemma MinExists(ids: set<Long>)
    requires ids != {}
    ensures exists m :: m in ids && forall k :: k in ids ==> m <= k
  {
    var m := LeastId(ids);
  }

  /** The smallest id of a non-empty set. */
  function MinId(ids: set<Long>): (m: Long)
    requires ids != {}
    ensures m in ids && forall k :: k in ids ==> m <= k
  {
    MinExists(ids);
    var m :| m in ids && forall k :: k in ids ==> m <= k;
    m
  }

  /** The ids of a set in ascending order: the order in which the store is traversed. */
  function SortedIds(ids: set<Long>): (r: seq<Long>)
    ensures |r| == |ids|
    ensures forall k :: k in r <==> k in ids
    ensures forall i, j :: 0 <= i < j < |r| ==> r[i] < r[j]
    decreases ids
  {
    if ids == {} then []
    else
      var m := MinId(ids);
      var rest := SortedIds(ids - {m});
      PrependLeast(ids, m, rest);
      [m] + rest
  }

  /** Putting the least id in front of the sorted other ids sorts them all. */
  lemma PrependLeast(ids: set<Long>, m: Long, rest: seq<Long>)
    requires m in ids && forall k :: k in ids ==> m <= k
    requires |rest| == |ids - {m}|
    requires forall k :: k in rest <==> k in ids - {m}
    requires forall i, j :: 0 <= i < j < |rest| ==> rest[i] < rest[j]
    ensures |[m] + rest| == |ids|
    ensures forall k :: k in [m] + rest <==> k in ids
    ensures forall i, j :: 0 <= i < j < |[m] + rest| ==> ([m] + rest)[i] < ([m] + rest)[j]
  {
    var r := [m] + rest;
    forall i, j | 0 <= i < j < |r|
      ensures r[i] < r[j]
    {
      if i == 0 {
        assert r[j] == rest[j - 1] && r[j] in ids - {m};
      } else {
        assert r[i] == rest[i - 1] && r[j] == rest[j - 1];
      }
    }
  }

  /** The stored products, traversed in ascending id order; every stored product appears exactly once. */
  function InIdOrder(storage: map<Long, ProductRecord>): (r: seq<ProductRecord>)
    ensures |r| == |storage|
    ensures forall p :: p in r <==> p in storage.Values
    ensures (forall id :: id in storage ==> storage[id].id == id) ==> IdsIncreasing(r)
  {
    var ids := SortedIds(storage.Keys);
    var r := ValuesAt(storage, ids);
    ListedByKeys(storage, ids, r);
    r
  }

  /** The values stored under some keys, in the order of the keys. */
  function ValuesAt(storage: map<Long, ProductRecord>, ids: seq<Long>): (r: seq<ProductRecord>)
    requires forall k :: k in ids ==> k in storage
    ensures |r| == |ids| && forall i :: 0 <= i < |ids| ==> r[i] == storage[ids[i]]
  {
    seq(|ids|, i requires 0 <= i < |ids| => storage[ids[i]])
  }

  /** Listing a map's values by a sequence of all its keys lists every value, and sorted keys give increasing ids. */
  lemma ListedByKeys(storage: map<Long, ProductRecord>, ids: seq<Long>, r: seq<ProductRecord>)
    requires forall k :: k in ids <==> k in storage
    requires forall i, j :: 0 <= i < j < |ids| ==> ids[i] < ids[j]
    requires |r| == |ids| && forall i :: 0 <= i < |ids| ==> r[i] == storage[ids[i]]
    ensures forall p :: p in r <==> p in storage.Values
    ensures (forall id :: id in storage ==> storage[id].id == id) ==> IdsIncreasing(r)
  {
    forall p | p in storage.Values
      ensures p in r
    {
      var k :| k in storage && storage[k] == p;
      var i :| 0 <= i < |ids| && ids[i] == k;
      assert r[i] == p;
    }
  }

  /** The product passes the category filter (a null criterion passes everything). */
  predicate PassesCategory(p: ProductRecord, c: SearchCriteria)
  {
    c.category.None? || (p.category.Some? && Text.EqualsIgnoreCase(p.category.value, c.category.value))
  }

  /**
   * The reference meaning of a search: every non-null criterion holds, category and brand
   * compared ignoring case, price inside the inclusive bounds. A null field never matches a
   * present criterion.
   */
  predicate Matches(p: ProductRecord, c: SearchCriteria)
  {
    && PassesCategory(p, c)
    && (c.brand.None? || (p.brand.Some? && Text.EqualsIgnoreCase(p.brand.value, c.brand.value)))
    && (c.minPrice.None? || p.price >= c.minPrice.value)
    && (c.maxPrice.None? || p.price <= c.maxPrice.value)
  }

  /**
   * The filter chain dereferences a null field of this product: a category criterion meets a
   * null category, or a brand criterion meets a null brand after the category filter passed.
   */
  predicate ThrowsOn(p: ProductRecord, c: SearchCriteria)
  {
    (c.category.Some? && p.category.None?) ||
    (c.brand.Some? && p.brand.None? && PassesCategory(p, c))
  }

  /**
   * The four stream filters applied to one product in their order: category, brand, minimum
   * price, maximum price. It throws exactly where a filter calls equalsIgnoreCase on a null
   * field, and otherwise decides Matches.
   */
  function Check(p: ProductRecord, c: SearchCriteria): (r: Result<bool, SearchError>)
    ensures r.Failure? <==> ThrowsOn(p, c)
    ensures r.Success? ==> r.value == Matches(p, c)
  {
    if c.category.Some? && p.category.None? then Failure(NullPointer)
    else if c.category.Some? && !Text.EqualsIgnoreCase(p.category.value, c.category.value) then Success(false)
    else if c.brand.Some? && p.brand.None? then Failure(NullPointer)
    else if c.brand.Some? && !Text.EqualsIgnoreCase(p.brand.value, c.brand.value) then Success(false)
    else Success((c.minPrice.None? || p.price >= c.minPrice.value) &&
                 (c.maxPrice.None? || p.price <= c.maxPrice.value))
  }

  /** Ids strictly increase along the sequence. */
  predicate IdsIncreasing(values: seq<ProductRecord>)
  {
    forall i, j :: 0 <= i < j < |values| ==> values[i].id < values[j].id
  }

  /** In a sequence with increasing ids the first id is below every later one. */
  lemma HeadIdSmallest(values: seq<ProductRecord>)
    requires values != []
    ensures IdsIncreasing(values) ==> IdsIncreasing(values[1..]) && forall q :: q in values[1..] ==> values[0].id < q.id
  {
    if IdsIncreasing(values) {
      forall q | q in values[1..]
        ensures values[0].id < q.id
      {
        var j :| 0 <= j < |values[1..]| && values[1..][j] == q;
        assert values[j + 1] == q;
      }
    }
  }

  /**
   * The stream over the stored values: each product runs through the filters in traversal
   * order and the survivors are collected. The search fails exactly when some product makes
   * a filter throw; otherwise it returns exactly the matching products, in the traversal
   * order.
   */
  function SearchValues(values: seq<ProductRecord>, c: SearchCriteria): (r: Result<seq<ProductRecord>, SearchError>)
    ensures r.Failure? <==> exists p :: p in values && ThrowsOn(p, c)
    ensures r.Success? ==> forall p :: p in r.value <==> p in values && Matches(p, c)
    ensures r.Success? ==> |r.value| <= |values|
    ensures r.Success? && IdsIncreasing(values) ==> IdsIncreasing(r.value)
    decreases |values|
  {
    if values == [] then Success([])
    else
      var head := Check(values[0], c);
      var rest := SearchValues(values[1..], c);
      HeadIdSmallest(values);
      if head.Failure? then Failure(head.error)
      else if rest.Failure? then rest
      else if head.value then Success([values[0]] + rest.value)
      else rest
  }

  /** With all four criteria null the filter chain keeps any product. */
  lemma PassesWithoutFilters(p: ProductRecord)
    ensures Check(p, NoFilters) == Success(true)
  {
  }

  /** A head that passes every filter is kept in front of what the filter keeps of the rest. */
  lemma KeepsPassingHead(values: seq<ProductRecord>, c: SearchCriteria)
    requires values != [] && Check(values[0], c) == Success(true)
    requires SearchValues(values[1..], c).Success?
    ensures SearchValues(values, c) == Success([values[0]] + SearchValues(values[1..], c).value)
  {
  }

  /** A search with all four criteria null returns every product, in traversal order. */
  lemma {:induction false} SearchWithoutFiltersReturnsAll(values: seq<ProductRecord>)
    ensures SearchValues(values, NoFilters) == Success(values)
    decreases |values|
  {
    if values != [] {
      SearchWithoutFiltersReturnsAll(values[1..]);
      PassesWithoutFilters(values[0]);
      KeepsPassingHead(values, NoFilters);
      assert [values[0]] + values[1..] == values;
    }
  }

  /**
   * The store. Java keeps the map and the counter in static fields shared by every instance;
   * here they are the fields of one repository object.
   */
  class InMemoryProductRepository {
    var storage: map<Long, ProductRecord>
    var idCounter: Long

    /** Every product is stored under its own id. */
    ghost predicate Valid()
      reads this
    {
      forall id :: id in storage ==> storage[id].id == id
    }

    constructor ()
      ensures Valid() && storage == map[] && idCounter == 0
    {
      storage := map[];
      idCounter := 0;
    }

    /**
     * A product with id 0 is new: it gets the next counter value as its id. Any other id is
     * kept. The product is then stored under its id, replacing what was there, and returned.
     * A fresh id is new to the store only while every stored id is at most the counter: an
     * id chosen by the caller above the counter is overwritten once the counter reaches it.
     */
    method Save(product: Product) returns (saved: Product)
      requires Valid()
      modifies this, product
      ensures Valid()
      ensures saved == product
      ensures old(product.id) == 0 ==> idCounter == IncrementAndGet(old(idCounter)) && product.id == idCounter
      ensures old(product.id) != 0 ==> product.id == old(product.id) && idCounter == old(idCounter)
      ensures product.Value() == old(product.Value()).(id := product.id)
      ensures storage == old(storage)[product.id := product.Value()]
      ensures FindById(product.id) == Some(product.Value())
      ensures (old(product.id) == 0 && old(idCounter) < LONG_MAX &&
               forall k :: k in old(storage) ==> k <= old(idCounter)) ==> product.id !in old(storage)
    {
      if product.id == 0 {
        idCounter := IncrementAndGet(idCounter);
        product.SetId(idCounter);
      }
      storage := storage[product.id := product.Value()];
      saved := product;
    }

    /** The product stored under the id, if any. */
    function FindById(id: Long): (r: Option<ProductRecord>)
      reads this
      ensures r.Some? <==> id in storage
      ensures r.Some? ==> r.value == storage[id]
    {
      if id in storage then Some(storage[id]) else None
    }

    /** A new list holding every stored product exactly once. */
    function FindAll(): (r: seq<ProductRecord>)
      reads this
      ensures |r| == |storage|
      ensures forall p :: p in r <==> p in storage.Values
    {
      InIdOrder(storage)
    }

    /** Removes the id's entry and nothing else. */
    method DeleteById(id: Long)
      requires Valid()
      modifies this
      ensures Valid()
      ensures storage == old(storage) - {id} && idCounter == old(idCounter)
      ensures FindById(id) == None
      ensures forall k :: k in old(storage) && k != id ==> FindById(k) == old(FindById(k))
    {
      storage := storage - {id};
    }

    /**
     * The filtered search over the stored products. It fails exactly when a filter meets a
     * null field; otherwise it returns exactly the stored products that pass every non-null
     * criterion, in ascending id order.
     */
    function Search(criteria: SearchCriteria): (r: Result<seq<ProductRecord>, SearchError>)
      reads this
      ensures r.Failure? <==> exists p :: p in storage.Values && ThrowsOn(p, criteria)
      ensures r.Success? ==> forall p :: p in r.value <==> p in storage.Values && Matches(p, criteria)
      ensures Valid() && r.Success? ==> IdsIncreasing(r.value)
    {
      SearchValues(InIdOrder(storage), criteria)
    }

    /** A search with all four criteria null returns exactly what listing all products returns. */
    lemma SearchWithoutFilters()
      ensures Search(NoFilters) == Success(FindAll())
    {
      SearchWithoutFiltersReturnsAll(InIdOrder(storage));
    }
  }
}
