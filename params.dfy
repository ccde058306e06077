/** Pagination parameters (`PaginationParams`) and the page rules shared by the product
    listing and the account's order listing. */
module Params {
  import opened Builtins
  import opened Wrappers
  import opened AppErrors

  /** The page a `Validate` call leaves: pages below 1 become 1. */
  function DefaultPage(page: int64): (r: int64)
    ensures r >= 1
    ensures page >= 1 ==> r == page
    ensures page < 1 ==> r == 1
  {
    if page < 1 then 1 else page
  }

  /** The page size a `Validate` call leaves: sizes below 1 become 5. */
  function DefaultPerPage(perPage: int64): (r: int64)
    ensures r >= 1
    ensures perPage >= 1 ==> r == perPage
    ensures perPage < 1 ==> r == 5
  {
    if perPage < 1 then 5 else perPage
  }

  lemma ValidateIdempotent(page: int64, perPage: int64)
    ensures DefaultPage(DefaultPage(page)) == DefaultPage(page)
    ensures DefaultPerPage(DefaultPerPage(perPage)) == DefaultPerPage(perPage)
  {
  }

  /** `(Page - 1) * PerPage` in Go's wrapping `int` arithmetic. */
  function Offset(page: int64, perPage: int64): (r: int64)
    ensures page == 1 ==> r == 0
    ensures 1 <= page && 0 <= perPage && (page - 1) * perPage <= MaxInt64 ==> r == (page - 1) * perPage >= 0
  {
    Wrap64((page - 1) * perPage)
  }

  /** Once far enough out, the offset wraps negative: page 2^62 with 100 per page. */
  lemma OffsetWrapsForHugePages()
    ensures Offset(0x4000_0000_0000_0000, 100) < 0
  {
    Wrap64Down((0x4000_0000_0000_0000 - 1) * 100, 25);
  }

  class PaginationParams {
    var isPaginate: bool
    var page: int64
    var perPage: int64

    constructor (isPaginate: bool, page: int64, perPage: int64)
      ensures this.isPaginate == isPaginate && this.page == page && this.perPage == perPage
    {
      this.isPaginate := isPaginate;
      this.page := page;
      this.perPage := perPage;
    }

    /** `Validate()`: defaults the page to 1 and the page size to 5; IsPaginate untouched. */
    method Validate()
      modifies this
      ensures page == DefaultPage(old(page)) && perPage == DefaultPerPage(old(perPage))
      ensures isPaginate == old(isPaginate)
      ensures page >= 1 && perPage >= 1
    {
      if page < 1 {
        page := 1;
      }
      if perPage < 1 {
        perPage := 5;
      }
    }

    /** `GetOffset()`, which changes no field. */
    function GetOffset(): (r: int64)
      reads this
      ensures r == Offset(page, perPage)
    {
      Wrap64((page - 1) * perPage)
    }
  }

  /** The bounds check both listings make before asking the repository: when paginating, a
      page below 1 or a page size outside [1, 100] is refused with AccessDenied. */
  function PaginationError(isPaginate: bool, page: int64, perPage: int64): (r: Option<Error>)
    ensures r.Some? <==> isPaginate && (page < 1 || perPage < 1 || perPage > 100)
    ensures r.Some? ==> Is(r.value, AccessDenied) && !Is(r.value, Validation)
  {
    if isPaginate && page < 1 then
      IsAppError(Some(Plain("page must be greater than 0")), AccessDenied, AccessDenied);
      IsAppError(Some(Plain("page must be greater than 0")), AccessDenied, Validation);
      Some(Fail("page must be greater than 0", AccessDenied))
    else if isPaginate && (perPage < 1 || perPage > 100) then
      IsAppError(Some(Plain("page must be greater than 0")), AccessDenied, AccessDenied);
      IsAppError(Some(Plain("page must be greater than 0")), AccessDenied, Validation);
      Some(Fail("page must be greater than 0", AccessDenied))
    else None
  }

  /** Ceiling of n / d for a positive d (Go computes it through float64). */
  function CeilDiv(n: int, d: nat): (q: int)
    requires d > 0
    ensures q * d >= n
    ensures (q - 1) * d < n
  {
    -((-n) / d)
  }

  /** The page count reported in the metadata: 1 when not paginating, otherwise enough pages
      of PerPage rows to hold every row. */
  function TotalPage(isPaginate: bool, perPage: int64, totalData: int64): (r: int)
    ensures !isPaginate ==> r == 1
    ensures isPaginate && perPage > 0 ==> r * perPage >= totalData && (r - 1) * perPage < totalData
    ensures isPaginate && perPage > 0 && totalData >= 0 ==> (r == 0 <==> totalData == 0)
  {
    if isPaginate && perPage > 0 then CeilDiv(totalData, perPage) else 1
  }

  /** `MetadataDTO`. */
  datatype Metadata = Metadata(page: int64, perPage: int64, totalData: int64, totalPage: int)
}
