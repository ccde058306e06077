/** `ProductService`: the product listing with its pagination check and metadata, and the
    product detail lookup. The repository's filtered query is a parameter. */
module ProductService {
  import opened Builtins
  import opened Wrappers
  import opened AppErrors
  import opened Entities
  import opened Store
  import opened Params

  /** `ProductDTO`: a product without its audit columns. */
  datatype ProductDto = ProductDto(
    id: int64,
    categoryId: int64,
    name: string,
    description: string,
    stock: int64,
    price: int64,
    imageUrl: string,
    isActive: bool)

  function ProductToDto(p: Product): (d: ProductDto)
    ensures d.id == p.id && d.categoryId == p.categoryId && d.name == p.name
    ensures d.description == p.description && d.stock == p.stock && d.price == p.price
    ensures d.imageUrl == p.imageUrl && d.isActive == p.isActive
  {
    ProductDto(p.id, p.categoryId, p.name, p.description, p.stock, p.price, p.imageUrl, p.isActive)
  }

  /** Two products show the same DTO exactly when they differ at most in who created and
      last updated them. */
  lemma ProductToDtoForgetsOnlyAudit(p: Product, q: Product)
    ensures ProductToDto(p) == ProductToDto(q) <==> p == q.(createdBy := p.createdBy, updatedBy := p.updatedBy)
  {
  }

  datatype GetProductsRequest = GetProductsRequest(
    name: string,
    isActive: bool,
    page: int64,
    perPage: int64,
    isPaginate: bool)

  /** The rows and the total count `FindWithFilters` answers with. */
  datatype ProductsPage = ProductsPage(products: seq<Product>, totalData: int64)

  datatype ProductsData = ProductsData(products: seq<ProductDto>, metadata: Metadata)

  /** The query the listing delegates to: name filter, active filter, paginate?, page, page size. */
  type ProductsQuery = (string, bool, bool, int64, int64) -> Result<ProductsPage, Error>

  class ProductService {
    const store: Store

    constructor (store: Store)
      ensures this.store == store
    {
      this.store := store;
    }

    /** `GetProducts`: the pagination check, then the query, then one DTO per row in order
        and the metadata. */
    method GetProducts(request: GetProductsRequest, query: ProductsQuery) returns (r: Result<ProductsData, Error>)
      ensures PaginationError(request.isPaginate, request.page, request.perPage).Some? ==>
                r == Failure(PaginationError(request.isPaginate, request.page, request.perPage).value)
      ensures PaginationError(request.isPaginate, request.page, request.perPage).None? ==>
                var q := query(request.name, request.isActive, request.isPaginate, request.page, request.perPage);
                (q.Failure? ==> r == Failure(q.error)) &&
                (q.Success? ==>
                   r.Success? &&
                   |r.value.products| == |q.value.products| &&
                   (forall k :: 0 <= k < |q.value.products| ==> r.value.products[k] == ProductToDto(q.value.products[k])) &&
                   r.value.metadata == Metadata(request.page, request.perPage, q.value.totalData,
                                                TotalPage(request.isPaginate, request.perPage, q.value.totalData)))
    {
      var bounds := PaginationError(request.isPaginate, request.page, request.perPage);
      if bounds.Some? {
        return Failure(bounds.value);
      }
      var q := query(request.name, request.isActive, request.isPaginate, request.page, request.perPage);
      if q.Failure? {
        return Failure(q.error);
      }
      var products := q.value.products;
      var dtos := new ProductDto[|products|];
      for i := 0 to |products|
        invariant forall m :: 0 <= m < i ==> dtos[m] == ProductToDto(products[m])
      {
        var product := products[i];
        dtos[i] := ProductDto(product.id, product.categoryId, product.name, product.description,
                              product.stock, product.price, product.imageUrl, product.isActive);
      }
      var totalPage := TotalPage(request.isPaginate, request.perPage, q.value.totalData);
      r := Success(ProductsData(dtos[..], Metadata(request.page, request.perPage, q.value.totalData, totalPage)));
    }

    /** `GetProductDetail`: the product under `id`, or the repository's ResourceNotFound. */
    method GetProductDetail(id: int64) returns (r: Result<ProductDto, Error>)
      ensures r == ProductDetail(store.products, id)
    {
      var product := FindProduct(store.products, id);
      if product.Failure? {
        return Failure(product.error);
      }
      r := Success(ProductToDto(product.value));
    }
  }

  /** What the detail lookup answers for `id` over the product table. */
  function ProductDetail(products: map<int64, Product>, id: int64): (r: Result<ProductDto, Error>)
    ensures r.Success? <==> id in products
    ensures r.Success? ==> r.value == ProductToDto(products[id]) && r.value.id == products[id].id
    ensures r.Failure? ==> Is(r.error, ResourceNotFound) && !Is(r.error, Validation)
  {
    IsAppError(Some(Plain(RecordNotFound)), ResourceNotFound, ResourceNotFound);
    IsAppError(Some(Plain(RecordNotFound)), ResourceNotFound, Validation);
    match FindProduct(products, id)
    case Failure(e) => Failure(e)
    case Success(p) => Success(ProductToDto(p))
  }

  /** The product table is keyed by id, so a detail lookup answers with the product asked for. */
  lemma ProductDetailAnswersId(products: map<int64, Product>, id: int64)
    requires forall k :: k in products ==> products[k].id == k
    requires id in products
    ensures ProductDetail(products, id).Success? && ProductDetail(products, id).value.id == id
  {
  }

  /** Without pagination the listing never refuses and always reports a single page, whatever
      page and page size the request carries. */
  lemma UnpaginatedListingIsOnePage(request: GetProductsRequest, totalData: int64)
    requires !request.isPaginate
    ensures PaginationError(request.isPaginate, request.page, request.perPage).None?
    ensures TotalPage(request.isPaginate, request.perPage, totalData) == 1
  {
  }

  /** With pagination an accepted page size lies in [1, 100] and an empty result has no pages. */
  lemma PaginatedListingBounds(request: GetProductsRequest, totalData: int64)
    requires request.isPaginate
    requires PaginationError(request.isPaginate, request.page, request.perPage).None?
    requires totalData >= 0
    ensures request.page >= 1 && 1 <= request.perPage <= 100
    ensures TotalPage(request.isPaginate, request.perPage, totalData) == 0 <==> totalData == 0
    ensures 0 <= TotalPage(request.isPaginate, request.perPage, totalData) <= totalData
  {
    PageCountBounds(totalData, request.perPage);
  }

  /** A ceiling quotient of a count by a positive divisor is between 0 and the count. */
  lemma PageCountBounds(n: int, d: int)
    requires n >= 0 && d >= 1
    ensures 0 <= CeilDiv(n, d) <= n
  {
    var q := CeilDiv(n, d);
    assert q * d >= n && (q - 1) * d < n;
    ScaleAtLeast(q, d);
    ScaleAtLeast(q - 1, d);
  }

  /** Multiplying by a positive divisor moves a number away from zero. */
  lemma ScaleAtLeast(x: int, d: int)
    requires d >= 1
    ensures x >= 0 ==> x * d >= x
    ensures x < 0 ==> x * d <= x
  {
    assert x * d - x == x * (d - 1);
  }
}
