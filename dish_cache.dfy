/** The customer's dish listing by category, read through a key-value cache:
    a non-empty cached list is served as it is; otherwise the catalog is
    queried for the dishes on sale in the category, with their flavors, and
    the answer is stored under the category's key. Nothing ever removes or
    refreshes an entry. */
module DishCache {
  import opened Common
  import opened Entities
  import opened Store

  /** A dish as listed to customers: its row and its flavors. */
  datatype DishVO = DishVO(dish: Dish, flavors: seq<DishFlavor>)

  /** The cache key of a category: `"dish_"` followed by the category id, or
      by `null` when the request names none. What follows the prefix tells
      the two cases apart, since a rendered id starts with a digit or `-`. */
  function CacheKey(categoryId: Option<int>): (r: string)
    ensures |r| > 5 && r[..5] == "dish_"
    ensures r[5] == 'n' <==> categoryId.None?
    ensures categoryId.Some? ==> r[5..] == IntToString(categoryId.value)
  {
    if categoryId.Some? then
      IntToStringChars(categoryId.value);
      "dish_" + IntToString(categoryId.value)
    else "dish_null"
  }

  /** Two requests share a cache entry exactly when they name the same category. */
  lemma CacheKeyInjective(a: Option<int>, b: Option<int>)
    ensures CacheKey(a) == CacheKey(b) <==> a == b
  {
    if a.Some? && b.Some? && CacheKey(a) == CacheKey(b) {
      IntToStringInjective(a.value, b.value);
    }
  }

  /** Each dish with its flavors. */
  function WithFlavors(ds: seq<Dish>, flavors: seq<DishFlavor>): (r: seq<DishVO>)
    ensures |r| == |ds|
    ensures forall i :: 0 <= i < |ds| ==> r[i] == DishVO(ds[i], FlavorsOf(flavors, ds[i].id))
  {
    if ds == [] then [] else [DishVO(ds[0], FlavorsOf(flavors, ds[0].id))] + WithFlavors(ds[1..], flavors)
  }

  /** The catalog query behind a miss: the dishes of the category (of any
      category when none is named) in the given status, each with its flavors. */
  function ListWithFlavor(dishes: seq<Dish>, flavors: seq<DishFlavor>, categoryId: Option<int>, status: int): seq<DishVO> {
    WithFlavors(DishesByCategory(dishes, categoryId, status), flavors)
  }

  /** One listing request: the list returned and the cache afterwards. What
      is returned is what the category's key holds afterwards; a non-empty
      entry is served without a write, and an answer from the catalog is
      always the category's dishes on sale. */
  function ListStep(entries: map<string, seq<DishVO>>, dishes: seq<Dish>, flavors: seq<DishFlavor>,
                    categoryId: Option<int>): (r: (seq<DishVO>, map<string, seq<DishVO>>))
    ensures CacheKey(categoryId) in r.1 && r.1[CacheKey(categoryId)] == r.0
    ensures CacheKey(categoryId) in entries && entries[CacheKey(categoryId)] != [] ==> r.1 == entries
    ensures r.1 != entries ==> r.0 == ListWithFlavor(dishes, flavors, categoryId, ENABLE)
  {
    var key := CacheKey(categoryId);
    if key in entries && |entries[key]| > 0 then (entries[key], entries)
    else
      var list := ListWithFlavor(dishes, flavors, categoryId, ENABLE);
      (list, entries[key := list])
  }

  class Cache {
    var entries: map<string, seq<DishVO>>

    constructor ()
      ensures entries == map[]
    {
      entries := map[];
    }

    /** Serves the category's cached list when it is non-empty; otherwise
        queries the catalog and caches the answer. */
    method List(db: Database, categoryId: Option<int>) returns (list: seq<DishVO>)
      modifies this
      ensures (list, entries) == ListStep(old(entries), db.dishes, db.flavors, categoryId)
    {
      var key := CacheKey(categoryId);
      if key in entries {
        var cached := entries[key];
        if |cached| > 0 {
          return cached;
        }
      }
      list := ListWithFlavor(db.dishes, db.flavors, categoryId, ENABLE);
      entries := entries[key := list];
    }
  }

  /** A non-empty cached list is served as it is, without looking at the
      catalog, and the cache is left as it was. */
  lemma HitServesCached(entries: map<string, seq<DishVO>>, dishes: seq<Dish>, flavors: seq<DishFlavor>, categoryId: Option<int>)
    requires CacheKey(categoryId) in entries && entries[CacheKey(categoryId)] != []
    ensures ListStep(entries, dishes, flavors, categoryId) == (entries[CacheKey(categoryId)], entries)
  {
  }

  /** On a miss, or an empty cached list, the answer is exactly the dishes
      on sale in the category, each with its own flavors, in catalog order,
      and it is stored under the category's key. */
  lemma MissServesCatalog(entries: map<string, seq<DishVO>>, dishes: seq<Dish>, flavors: seq<DishFlavor>, categoryId: Option<int>)
    requires CacheKey(categoryId) !in entries || entries[CacheKey(categoryId)] == []
    ensures var (list, after) := ListStep(entries, dishes, flavors, categoryId);
      && CacheKey(categoryId) in after && after[CacheKey(categoryId)] == list
      && (forall vo :: vo in list ==>
            && vo.dish in dishes && vo.dish.status == ENABLE
            && (categoryId.Some? ==> vo.dish.categoryId == categoryId.value)
            && vo.flavors == FlavorsOf(flavors, vo.dish.id))
      && (forall d :: d in dishes && d.status == ENABLE && (categoryId.Some? ==> d.categoryId == categoryId.value) ==>
            DishVO(d, FlavorsOf(flavors, d.id)) in list)
  {
    var ds := DishesByCategory(dishes, categoryId, ENABLE);
    var list := WithFlavors(ds, flavors);
    forall d | d in dishes && d.status == ENABLE && (categoryId.Some? ==> d.categoryId == categoryId.value)
      ensures DishVO(d, FlavorsOf(flavors, d.id)) in list
    {
      assert d in ds;
      var i :| 0 <= i < |ds| && ds[i] == d;
      assert list[i] == DishVO(d, FlavorsOf(flavors, d.id));
    }
    forall vo | vo in list
      ensures vo.dish in ds && vo.flavors == FlavorsOf(flavors, vo.dish.id)
    {
      var i :| 0 <= i < |list| && list[i] == vo;
      assert vo == DishVO(ds[i], FlavorsOf(flavors, ds[i].id));
    }
  }

  /** A request right after one that returned a non-empty list returns the
      same list from the cache, and changes nothing. */
  lemma {:induction false} RepeatCallHits(entries: map<string, seq<DishVO>>, dishes: seq<Dish>, flavors: seq<DishFlavor>, categoryId: Option<int>)
    ensures var (list, after) := ListStep(entries, dishes, flavors, categoryId);
      list != [] ==> ListStep(after, dishes, flavors, categoryId) == (list, after)
  {
  }

  /** A request writes at most its own key: every other entry is kept. */
  lemma WritesOnlyOwnKey(entries: map<string, seq<DishVO>>, dishes: seq<Dish>, flavors: seq<DishFlavor>, categoryId: Option<int>)
    ensures var after := ListStep(entries, dishes, flavors, categoryId).1;
      && after.Keys == entries.Keys + {CacheKey(categoryId)}
      && forall k :: k in entries && k != CacheKey(categoryId) ==> after[k] == entries[k]
  {
  }

  /** Requests for different categories do not interfere: listing one
      category keeps what another category's request would be served. */
  lemma OtherCategoriesUnaffected(entries: map<string, seq<DishVO>>, dishes: seq<Dish>, flavors: seq<DishFlavor>,
                                  a: Option<int>, b: Option<int>)
    requires a != b
    ensures var after := ListStep(entries, dishes, flavors, a).1;
      ListStep(after, dishes, flavors, b).0 == ListStep(entries, dishes, flavors, b).0
  {
    CacheKeyInjective(a, b);
  }

  /** With no invalidation, once a non-empty list is cached it is served
      whatever the catalog becomes afterwards. */
  lemma CachedListGoesStale(entries: map<string, seq<DishVO>>, dishes: seq<Dish>, flavors: seq<DishFlavor>,
                            laterDishes: seq<Dish>, laterFlavors: seq<DishFlavor>, categoryId: Option<int>)
    ensures var (list, after) := ListStep(entries, dishes, flavors, categoryId);
      list != [] ==> ListStep(after, laterDishes, laterFlavors, categoryId).0 == list
  {
  }
}
