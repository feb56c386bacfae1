/** ProductAppService: product lookup, the paged product list with its argument
  * clamping, and product creation, each answering with ProductDto values. */
module ProductApp {
  import opened Common
  import opened Text
  import opened MoneyValue
  import opened ProductQuantityValue
  import opened Products
  import opened ProductStore
  import opened Sorting
  import opened ProductListing
  import opened Events
  import opened AggregateRoots
  import Outbox

  datatype ProductDto = ProductDto(id: Guid, name: string, price: real, quantity: int)

  /** MapToDto: the id, name, price amount and stock of a product. */
  function MapToDto(p: ProductState): ProductDto
  {
    ProductDto(p.id, p.name, p.price.amount, p.quantity.value)
  }

  /** The list request; a null field is None. */
  datatype ListFilter = ListFilter(searchName: Option<string>, pageNumber: Int32, pageSize: Int32,
                                   sortBy: Option<string>, sortDirection: Option<string>)

  datatype PagedResult = PagedResult(items: seq<ProductDto>, totalCount: int, pageNumber: Int32, pageSize: Int32)

  /** A page number below 1 becomes 1. */
  function ClampPageNumber(pageNumber: Int32): Int32
  {
    if pageNumber < 1 then 1 else pageNumber
  }

  /** Math.Clamp(pageSize, 1, 100). */
  function ClampPageSize(pageSize: Int32): Int32
  {
    if pageSize < 1 then 1 else if pageSize > 100 then 100 else pageSize
  }

  /** The clamps land in range, keep what is already in range, and so are idempotent. */
  lemma ClampRanges(pageNumber: Int32, pageSize: Int32)
    ensures 1 <= ClampPageNumber(pageNumber) && (1 <= pageNumber ==> ClampPageNumber(pageNumber) == pageNumber)
    ensures 1 <= ClampPageSize(pageSize) <= 100 && (1 <= pageSize <= 100 ==> ClampPageSize(pageSize) == pageSize)
    ensures pageSize < 1 ==> ClampPageSize(pageSize) == 1
    ensures pageSize > 100 ==> ClampPageSize(pageSize) == 100
    ensures ClampPageNumber(ClampPageNumber(pageNumber)) == ClampPageNumber(pageNumber)
    ensures ClampPageSize(ClampPageSize(pageSize)) == ClampPageSize(pageSize)
  {
  }

  /** `x ?? fallback`. */
  function OrDefault(x: Option<string>, fallback: string): string
  {
    if x.Some? then x.value else fallback
  }

  /** GetListAsync over the stored products: the clamped page of DTOs, the filtered
    * count, and the clamped page number and size echoed back. */
  function GetListPaged(products: seq<ProductState>, filter: ListFilter): (r: PagedResult)
  {
    var page := RepositoryPage(products, filter);
    PagedResult(seq(|page.items|, k requires 0 <= k < |page.items| => MapToDto(page.items[k])),
                page.totalCount, ClampPageNumber(filter.pageNumber), ClampPageSize(filter.pageSize))
  }

  /** The repository page behind a list request: the clamped arguments, and the
    * sort field and direction defaulting to Name and Asc. */
  function RepositoryPage(products: seq<ProductState>, filter: ListFilter): Page
  {
    GetList(products, filter.searchName, ClampPageNumber(filter.pageNumber), ClampPageSize(filter.pageSize),
            OrDefault(filter.sortBy, "Name"), OrDefault(filter.sortDirection, "Asc"))
  }

  /** The result echoes the clamped arguments and the filtered count, and holds one DTO
    * per item of the repository's page, in order. */
  lemma GetListPagedSpec(products: seq<ProductState>, filter: ListFilter)
    ensures var r := GetListPaged(products, filter);
      var page := RepositoryPage(products, filter);
      && r.pageNumber == ClampPageNumber(filter.pageNumber) && 1 <= r.pageNumber
      && r.pageSize == ClampPageSize(filter.pageSize) && 1 <= r.pageSize <= 100
      && r.totalCount == page.totalCount
      && |r.items| == |page.items|
      && (forall k :: 0 <= k < |r.items| ==> r.items[k] == MapToDto(page.items[k]))
  {
  }

  /** The repository's count is that of the products passing the name filter; its page
    * holds no more than the clamped page size; each item is a stored product that
    * passes the name filter, and the page is in the requested order. */
  lemma RepositoryPageItems(products: seq<ProductState>, filter: ListFilter)
    ensures var page := RepositoryPage(products, filter);
      && page.totalCount == |NameFilter(products, filter.searchName)|
      && |page.items| <= ClampPageSize(filter.pageSize)
      && (forall p :: p in page.items ==> (p in products
            && (filter.searchName.Some? && !IsBlank(filter.searchName.value) ==>
                  Contains(p.name, Trim(filter.searchName.value)))))
      && SortedBy(page.items, Order(SortKeyOf(OrDefault(filter.sortBy, "Name")),
                                    !EqualsIgnoreCase(OrDefault(filter.sortDirection, "Asc"), "Desc")))
  {
    GetListCount(products, filter.searchName, ClampPageNumber(filter.pageNumber), ClampPageSize(filter.pageSize),
                 OrDefault(filter.sortBy, "Name"), OrDefault(filter.sortDirection, "Asc"));
    GetListItems(products, filter.searchName, ClampPageNumber(filter.pageNumber), ClampPageSize(filter.pageSize),
                 OrDefault(filter.sortBy, "Name"), OrDefault(filter.sortDirection, "Asc"));
  }

  /** Without a sort field or direction the list is by name, ascending. */
  lemma DefaultOrder(filter: ListFilter)
    requires filter.sortBy.None? && filter.sortDirection.None?
    ensures SortKeyOf(OrDefault(filter.sortBy, "Name")) == ByName
    ensures !EqualsIgnoreCase(OrDefault(filter.sortDirection, "Asc"), "Desc")
  {
    assert ToLowerInvariant("Name") == "name";
    assert ToLowerInvariant("Asc") != ToLowerInvariant("Desc");
  }

  /** GetByIdAsync: the product's DTO, or null when the repository finds none. */
  function GetById(store: ProductUnitOfWork, id: Guid): (r: Option<ProductDto>)
    reads store`products, store.products
    ensures r.Some? <==> exists i :: 0 <= i < |store.products| && store.products[i].id == id
    ensures r.Some? ==> exists i :: 0 <= i < |store.products| && store.products[i].id == id
                                    && r.value == MapToDto(store.products[i].State())
  {
    var loaded := store.LoadProduct(id);
    if loaded.Err? then None
    else
      assert loaded.value.id == id;
      Some(MapToDto(loaded.value.State()))
  }

  /** The create request. */
  datatype CreateProductDto = CreateProductDto(name: string, price: real, initialQuantity: Int32)

  /** The outbox row of the ProductCreated event of a new product. */
  function CreatedRow(store: ProductUnitOfWork, productId: Guid, name: string, price: Money, quantity: ProductQuantity,
                      now: Time): Outbox.OutboxMessage
  {
    Outbox.MessageFor(EventTopic("Product"),
      DomainEvent(Some(productId), 1, now, None, ProductPayload(ProductCreated(productId, name, price.amount, quantity.value))),
      store.serialize, store.guidText)
  }

  /** What AddAsync and CommitAsync of a new product leave behind: one more commit, the
    * product's row last, the rows of every queued event in the outbox with the product's
    * `row` right after the other products' rows, and every queue empty; the
    * reservations are untouched. */
  twostate predicate ProductAdded(store: ProductUnitOfWork, state: ProductState, row: Outbox.OutboxMessage)
    reads *
  {
    && unchanged(store`reservations)
    && store.commits == old(store.commits) + 1
    && store.Stock() == old(store.Stock()) + [state]
    && store.outbox == old(store.outbox) + (old(store.ProductMessages()) + [row]) + old(store.ReservationMessages())
    && store.ProductMessages() == [] && store.ReservationMessages() == []
  }

  /** AddAsync and CommitAsync of a new product. */
  method AddAndCommit(store: ProductUnitOfWork, product: Product)
    requires store.Valid() && product.Valid() && product !in store.products && store.NewRoot(product.root)
    requires forall i :: 0 <= i < |store.products| ==> store.products[i].id != product.id
    modifies store`products, store`roots, store`commits, store`outbox, store.roots, product.root
    ensures store.Valid() && unchanged(store`reservations)
    ensures store.Stock() == old(store.Stock()) + [product.State()] && store.commits == old(store.commits) + 1
    ensures store.outbox == old(store.outbox)
      + (old(store.ProductMessages()) + old(Outbox.MessagesOf(product.root, store.serialize, store.guidText)))
      + old(store.ReservationMessages())
    ensures store.ProductMessages() == [] && store.ReservationMessages() == []
  {
    store.AddProduct(product);
    store.Commit();
  }

  /** Product.Create, then AddAsync and CommitAsync, for validated arguments. */
  method AddNewProduct(store: ProductUnitOfWork, name: string, price: Money, quantity: ProductQuantity, createdBy: Guid,
                       productId: Guid, now: Time, newId: Guid)
    returns (r: Result<ProductDto, Error>)
    requires store.Valid() && productId != EmptyGuid
    requires forall i :: 0 <= i < |store.products| ==> store.products[i].id != productId
    modifies store`products, store`roots, store`commits, store`outbox, store.roots
    ensures store.Valid()
    ensures r.Err? <==> IsBlank(name)
    ensures r.Err? ==> r.error == ProductNameRequired && unchanged(store)
    ensures r.Ok? ==> && r.value == ProductDto(productId, name, price.amount, quantity.value)
                      && ProductAdded(store, ProductState(productId, name, price, quantity, now, EmptyGuid, now, EmptyGuid),
                                      CreatedRow(store, productId, name, price, quantity, now))
  {
    var created := Product.Create(name, price, quantity, createdBy, productId, now, newId);
    if created.Err? {
      return Err(created.error);
    }
    var product := created.value;
    assert Outbox.MessagesOf(product.root, store.serialize, store.guidText)
      == [CreatedRow(store, productId, name, price, quantity, now)] by {
      Outbox.MessagesOfAt(product.root, 0, store.serialize, store.guidText);
    }
    AddAndCommit(store, product);
    r := Ok(MapToDto(product.State()));
  }

  /** CreateProductAsync: the price and the stock are checked as they are built (Money,
    * then ProductQuantity), then the name by Product.Create; the new product is added
    * and committed once, and its DTO repeats the input. */
  method CreateProduct(store: ProductUnitOfWork, dto: CreateProductDto, createdBy: Guid, productId: Guid, now: Time, newId: Guid)
    returns (r: Result<ProductDto, Error>)
    requires store.Valid() && productId != EmptyGuid
    requires forall i :: 0 <= i < |store.products| ==> store.products[i].id != productId
    modifies store`products, store`roots, store`commits, store`outbox, store.roots
    ensures store.Valid()
    ensures r.Err? ==> unchanged(store)
    ensures dto.price < 0.0 ==> r.Err? && r.error.Argument?
    ensures 0.0 <= dto.price && dto.initialQuantity < 0 ==> r.Err? && r.error.Argument?
    ensures 0.0 <= dto.price && 0 <= dto.initialQuantity ==>
      && (r.Err? <==> IsBlank(dto.name))
      && (r.Err? ==> r.error == ProductNameRequired)
      && (r.Ok? ==> && r.value == ProductDto(productId, dto.name, dto.price, dto.initialQuantity)
                    && ProductAdded(store, ProductState(productId, dto.name, MoneyRecord(dto.price),
                                                       QuantityRecord(dto.initialQuantity), now, EmptyGuid, now, EmptyGuid),
                                    CreatedRow(store, productId, dto.name, MoneyRecord(dto.price),
                                               QuantityRecord(dto.initialQuantity), now)))
  {
    var price := MoneyValue.FromAmount(dto.price);
    if price.Err? {
      return Err(price.error);
    }
    var quantity := ProductQuantityValue.FromValue(dto.initialQuantity);
    if quantity.Err? {
      return Err(quantity.error);
    }
    r := AddNewProduct(store, dto.name, price.value, quantity.value, createdBy, productId, now, newId);
  }
}
