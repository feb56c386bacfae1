/** ProductRepository.GetListAsync: the stored products filtered by name, counted,
  * ordered by the requested key and direction, and cut to one page. */
module ProductListing {
  import opened Common
  import opened Text
  import opened Sorting
  import opened Products

  /** The column OrderBy sorts on. */
  datatype SortKey = ByPrice | ByQuantity | ByCreatedAt | ByName

  /** Ordinal string order: a prefix comes first, otherwise the first differing
    * character decides. */
  predicate LexLe(a: string, b: string)
    decreases |a|
  {
    a == [] || (b != [] && (a[0] < b[0] || (a[0] == b[0] && LexLe(a[1..], b[1..]))))
  }

  lemma {:induction false} LexLeTotal(a: string, b: string)
    ensures LexLe(a, b) || LexLe(b, a)
    decreases |a|
  {
    if a != [] && b != [] && a[0] == b[0] {
      LexLeTotal(a[1..], b[1..]);
    }
  }

  lemma {:induction false} LexLeTransitive(a: string, b: string, c: string)
    requires LexLe(a, b) && LexLe(b, c)
    ensures LexLe(a, c)
    decreases |a|
  {
    if a != [] && b != [] && c != [] && a[0] == b[0] && b[0] == c[0] {
      LexLeTransitive(a[1..], b[1..], c[1..]);
    }
  }

  /** The `sortBy?.ToLowerInvariant() switch`: price, quantity and createdat pick their
    * column; anything else sorts by name. */
  function SortKeyOf(sortBy: string): SortKey
  {
    var key := ToLowerInvariant(sortBy);
    if key == "price" then ByPrice
    else if key == "quantity" then ByQuantity
    else if key == "createdat" then ByCreatedAt
    else ByName
  }

  /** The key is chosen by a case-insensitive match on the column name. */
  lemma SortKeyIgnoresCase(sortBy: string)
    ensures SortKeyOf(sortBy) == ByPrice <==> EqualsIgnoreCase(sortBy, "price")
    ensures SortKeyOf(sortBy) == ByQuantity <==> EqualsIgnoreCase(sortBy, "quantity")
    ensures SortKeyOf(sortBy) == ByCreatedAt <==> EqualsIgnoreCase(sortBy, "createdat")
    ensures SortKeyOf(sortBy) == ByName <==>
      !EqualsIgnoreCase(sortBy, "price") && !EqualsIgnoreCase(sortBy, "quantity") && !EqualsIgnoreCase(sortBy, "createdat")
  {
    LowerMatchesIgnoreCase(sortBy, "price");
    LowerMatchesIgnoreCase(sortBy, "quantity");
    LowerMatchesIgnoreCase(sortBy, "createdat");
  }

  /** `a` comes no later than `b` in ascending order of `key`. */
  predicate KeyLe(key: SortKey, a: ProductState, b: ProductState)
  {
    match key
    case ByPrice => a.price.amount <= b.price.amount
    case ByQuantity => a.quantity.value <= b.quantity.value
    case ByCreatedAt => a.createdAt <= b.createdAt
    case ByName => LexLe(a.name, b.name)
  }

  /** Every key order is a total preorder. */
  lemma KeyLePreorder(key: SortKey)
    ensures forall a, b :: KeyLe(key, a, b) || KeyLe(key, b, a)
    ensures forall a, b, c :: KeyLe(key, a, b) && KeyLe(key, b, c) ==> KeyLe(key, a, c)
  {
    if key == ByName {
      forall a: ProductState, b: ProductState ensures KeyLe(key, a, b) || KeyLe(key, b, a) {
        LexLeTotal(a.name, b.name);
      }
      forall a: ProductState, b: ProductState, c: ProductState | KeyLe(key, a, b) && KeyLe(key, b, c)
        ensures KeyLe(key, a, c)
      {
        LexLeTransitive(a.name, b.name, c.name);
      }
    }
  }

  /** OrderBy or OrderByDescending on `key`. */
  function Order(key: SortKey, ascending: bool): (le: (ProductState, ProductState) -> bool)
    ensures TotalPreorder(le)
    ensures forall a, b :: le(a, b) == if ascending then KeyLe(key, a, b) else KeyLe(key, b, a)
  {
    KeyLePreorder(key);
    if ascending then (a: ProductState, b: ProductState) => KeyLe(key, a, b)
    else (a: ProductState, b: ProductState) => KeyLe(key, b, a)
  }

  /** `Where(p => p.Name.Contains(term))`, keeping the stored order. */
  function Where(products: seq<ProductState>, term: string): (r: seq<ProductState>)
    ensures |r| <= |products|
    ensures forall p :: p in r <==> p in products && Contains(p.name, term)
  {
    if products == [] then []
    else
      var n := |products| - 1;
      var init := Where(products[..n], term);
      assert products == products[..n] + [products[n]];
      if Contains(products[n].name, term) then init + [products[n]] else init
  }

  /** The filter applies only to a search name that is not blank, and trimmed. */
  function NameFilter(products: seq<ProductState>, searchName: Option<string>): seq<ProductState>
  {
    if searchName.None? || IsBlank(searchName.value) then products
    else Where(products, Trim(searchName.value))
  }

  /** `(pageNumber - 1) * pageSize` in unchecked 32-bit arithmetic. */
  function PageOffset(pageNumber: Int32, pageSize: Int32): Int32
  {
    Wrap32((pageNumber - 1) * pageSize)
  }

  /** The filtered products in the requested order. */
  function Sorted(products: seq<ProductState>, searchName: Option<string>, sortBy: string, sortDirection: string)
    : seq<ProductState>
  {
    SortBy(NameFilter(products, searchName), Order(SortKeyOf(sortBy), !EqualsIgnoreCase(sortDirection, "Desc")))
  }

  datatype Page = Page(items: seq<ProductState>, totalCount: int)

  /** GetListAsync: the page of the sorted, filtered products and the filtered count. */
  function GetList(products: seq<ProductState>, searchName: Option<string>, pageNumber: Int32, pageSize: Int32,
                   sortBy: string, sortDirection: string): Page
  {
    var filtered := NameFilter(products, searchName);
    var sorted := Sorted(products, searchName, sortBy, sortDirection);
    Page(Take(Skip(sorted, PageOffset(pageNumber, pageSize)), pageSize), |filtered|)
  }

  /** The count is that of the filtered products, before paging and sorting: with a
    * blank search every product is counted, otherwise exactly those whose name holds
    * the trimmed term; no page or order argument changes it. */
  lemma GetListCount(products: seq<ProductState>, searchName: Option<string>, pageNumber: Int32, pageSize: Int32,
                     sortBy: string, sortDirection: string)
    ensures var r := GetList(products, searchName, pageNumber, pageSize, sortBy, sortDirection);
      && r.totalCount == |NameFilter(products, searchName)|
      && (searchName.None? || IsBlank(searchName.value) ==> r.totalCount == |products|)
      && r.totalCount == GetList(products, searchName, 1, 1, "", "").totalCount
      && 0 <= r.totalCount <= |products|
  {
  }

  /** Every item passes the filter and the items are in the requested order, at most
    * `pageSize` of them. */
  lemma GetListItems(products: seq<ProductState>, searchName: Option<string>, pageNumber: Int32, pageSize: Int32,
                     sortBy: string, sortDirection: string)
    ensures var r := GetList(products, searchName, pageNumber, pageSize, sortBy, sortDirection);
      && |r.items| <= (if pageSize <= 0 then 0 else pageSize)
      && (forall p :: p in r.items ==> (p in products
            && (searchName.Some? && !IsBlank(searchName.value) ==> Contains(p.name, Trim(searchName.value)))))
      && SortedBy(r.items, Order(SortKeyOf(sortBy), !EqualsIgnoreCase(sortDirection, "Desc")))
  {
    var le := Order(SortKeyOf(sortBy), !EqualsIgnoreCase(sortDirection, "Desc"));
    var filtered := NameFilter(products, searchName);
    var sorted := Sorted(products, searchName, sortBy, sortDirection);
    var skipped := Skip(sorted, PageOffset(pageNumber, pageSize));
    var items := Take(skipped, pageSize);
    var d := |sorted| - |skipped|;
    assert forall k :: 0 <= k < |items| ==> items[k] == sorted[d + k];
    forall p | p in items ensures p in filtered {
      var k :| 0 <= k < |items| && items[k] == p;
      assert sorted[d + k] in multiset(sorted);
    }
  }

  /** The page is the slice of the sorted products that starts at the offset, or at 0
    * when the offset is negative, and holds up to `pageSize` of them. */
  lemma GetListSlice(products: seq<ProductState>, searchName: Option<string>, pageNumber: Int32, pageSize: Int32,
                     sortBy: string, sortDirection: string)
    requires 0 < pageSize
    ensures var sorted := Sorted(products, searchName, sortBy, sortDirection);
      var start := if PageOffset(pageNumber, pageSize) < 0 then 0 else PageOffset(pageNumber, pageSize);
      var end := if start + pageSize < |sorted| then start + pageSize else |sorted|;
      GetList(products, searchName, pageNumber, pageSize, sortBy, sortDirection).items
        == if start < |sorted| then sorted[start..end] else []
  {
    var sorted := Sorted(products, searchName, sortBy, sortDirection);
    var start := if PageOffset(pageNumber, pageSize) < 0 then 0 else PageOffset(pageNumber, pageSize);
    if start < |sorted| {
      assert Skip(sorted, PageOffset(pageNumber, pageSize)) == sorted[start..];
    }
  }

  /** The offset is the exact product while it fits in 32 bits; past that it wraps. */
  lemma PageOffsetExact(pageNumber: Int32, pageSize: Int32)
    requires 1 <= pageNumber && 0 <= pageSize && (pageNumber - 1) * pageSize <= MaxInt32
    ensures PageOffset(pageNumber, pageSize) == (pageNumber - 1) * pageSize
  {
    assert 0 <= (pageNumber - 1) * pageSize;
  }

  /** A page past the 32-bit range wraps to a negative offset and so repeats the first
    * page: page 21474838 of size 100 starts at offset 0. */
  lemma PageOffsetWraps()
    ensures PageOffset(21474838, 100) < 0
  {
    assert (21474838 - 1) * 100 == 2147483700;
  }
}
