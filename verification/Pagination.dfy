// Page arithmetic: normalisation, metadata, and slicing a list into pages.
module Pagination {
  import opened Options

  const DEFAULT_RECORDS_PAGE_SIZE: int := 20
  const MAX_RECORDS_PAGE_SIZE: int := 100

  datatype PageOptions = PageOptions(page: int, limit: int)

  datatype PageMeta = PageMeta(page: int, limit: int, total: nat, totalPages: int, hasNextPage: bool,
      hasPreviousPage: bool)

  function Max(a: int, b: int): int { if a < b then b else a }
  function Min(a: int, b: int): int { if a < b then a else b }

  // A JavaScript number.
  datatype Number = NaN | NegInfinity | Finite(value: real) | PosInfinity

  // What normalizeRecordsPageOptions hands to the storage.
  predicate Normalised(o: PageOptions) { o.page >= 1 && 1 <= o.limit <= 100 }

  // A number that comes to less than 1, and one above the largest page size.
  predicate TooSmall(n: Number) { n.NegInfinity? || (n.Finite? && n.value < 1.0) }
  predicate TooLarge(n: Number) { n.PosInfinity? || (n.Finite? && n.value > 100.0) }

  // normalizeRecordsPageOptions; None when the outcome is no page, because a number is NaN or the page
  // is infinite. Otherwise in-range values are rounded down and kept, smaller ones become 1, and larger
  // limits become the maximum.
  function NormalizeRecordsPageOptions(page: Option<Number>, limit: Option<Number>): (r: Option<PageOptions>)
    ensures r.None? <==> page in {Some(NaN), Some(PosInfinity)} || limit == Some(NaN)
    ensures r.Some? ==> Normalised(r.value)
    ensures r.Some? && page.Some? && page.value.Finite? && page.value.value >= 1.0 ==>
              r.value.page as real <= page.value.value < r.value.page as real + 1.0
    ensures r.Some? && (page.None? || TooSmall(page.value)) ==> r.value.page == 1
    ensures r.Some? && limit.None? ==> r.value.limit == 20
    ensures r.Some? && limit.Some? && !TooSmall(limit.value) && !TooLarge(limit.value) ==>
              limit.value.Finite? && r.value.limit as real <= limit.value.value < r.value.limit as real + 1.0
    ensures r.Some? && limit.Some? && TooSmall(limit.value) ==> r.value.limit == 1
    ensures r.Some? && limit.Some? && TooLarge(limit.value) ==> r.value.limit == 100
  {
    var safePage := match page
      case None => Some(1)
      case Some(NegInfinity) => Some(1)
      case Some(Finite(v)) => Some(Max(1, v.Floor))
      case _ => None;
    var safeLimit := match limit
      case None => Some(DEFAULT_RECORDS_PAGE_SIZE)
      case Some(NaN) => None
      case Some(NegInfinity) => Some(1)
      case Some(Finite(v)) => Some(Min(MAX_RECORDS_PAGE_SIZE, Max(1, v.Floor)))
      case Some(PosInfinity) => Some(MAX_RECORDS_PAGE_SIZE);
    if safePage.Some? && safeLimit.Some? then Some(PageOptions(safePage.value, safeLimit.value)) else None
  }

  // Math.ceil(a / b)
  function CeilDiv(a: nat, b: int): int
    requires b >= 1
  {
    (a + b - 1) / b
  }

  // buildRecordsPageMeta
  function BuildRecordsPageMeta(total: nat, page: int, limit: int): PageMeta
    requires limit >= 1
  {
    var totalPages := if total == 0 then 0 else CeilDiv(total, limit);
    PageMeta(page, limit, total, totalPages, totalPages > 0 && page < totalPages, page > 1 && total > 0)
  }

  // items.slice(offset, offset + limit), and LIMIT/OFFSET
  function Slice<T>(items: seq<T>, offset: nat, limit: nat): seq<T> {
    items[Min(offset, |items|)..Min(offset + limit, |items|)]
  }

  function Page<T>(items: seq<T>, page: int, limit: int): seq<T>
    requires page >= 1 && limit >= 1
  {
    OffsetNonNegative(page, limit);
    Slice(items, (page - 1) * limit, limit)
  }

  lemma OffsetNonNegative(page: int, limit: int)
    requires page >= 1 && limit >= 1
    ensures (page - 1) * limit >= 0
  {
  }

  // Pages 1..n one after the other.
  function Pages<T>(items: seq<T>, n: nat, limit: int): seq<T>
    requires limit >= 1
  {
    if n == 0 then [] else Pages(items, n - 1, limit) + Page(items, n, limit)
  }

  lemma {:induction false} PagesArePrefix<T>(items: seq<T>, n: nat, limit: int)
    requires limit >= 1
    ensures n * limit >= 0 && Pages(items, n, limit) == items[..Min(n * limit, |items|)]
  {
    if n > 0 {
      PagesArePrefix(items, n - 1, limit);
      assert n * limit == (n - 1) * limit + limit;
      var a, b := Min((n - 1) * limit, |items|), Min(n * limit, |items|);
      assert items[..a] + items[a..b] == items[..b];
    }
  }

  lemma MulMono(a: int, b: int, n: int)
    requires a <= b && n >= 1
    ensures a * n <= b * n
  {
    assert b * n == a * n + (b - a) * n;
  }

  lemma CeilDivBounds(total: nat, limit: int)
    requires limit >= 1
    ensures CeilDiv(total, limit) >= 0
    ensures total <= CeilDiv(total, limit) * limit < total + limit
  {
    var t := total + limit - 1;
    assert t == t / limit * limit + t % limit;
  }

  // A page number is past the end exactly when its offset is.
  lemma PageBeyond(total: nat, page: nat, limit: int)
    requires limit >= 1
    ensures page * limit >= 0
    ensures page * limit >= total <==> page >= CeilDiv(total, limit)
  {
    var c := CeilDiv(total, limit);
    CeilDivBounds(total, limit);
    MulMono(0, page, limit);
    if page >= c {
      MulMono(c, page, limit);
    } else {
      MulMono(page, c - 1, limit);
      assert (c - 1) * limit == c * limit - limit;
    }
  }

  lemma PageEmpty<T>(items: seq<T>, page: nat, limit: int)
    requires page >= 1 && limit >= 1
    ensures Page(items, page, limit) == [] <==> page > CeilDiv(|items|, limit)
  {
    hide CeilDiv;
    PageBeyond(|items|, page - 1, limit);
  }

  // Pages 1..totalPages give the list back, later pages are empty, and hasNextPage tells whether
  // the next page has anything on it; page, limit and total are handed on.
  lemma PagesPartition<T>(items: seq<T>, page: nat, limit: int)
    requires page >= 1 && limit >= 1
    ensures var meta := BuildRecordsPageMeta(|items|, page, limit);
      && meta.page == page && meta.limit == limit && meta.total == |items|
      && meta.totalPages >= 0
      && Pages(items, meta.totalPages, limit) == items
      && (Page(items, page, limit) == [] <==> page > meta.totalPages)
      && (meta.hasNextPage <==> Page(items, page + 1, limit) != [])
      && (meta.hasPreviousPage <==> page > 1 && Page(items, 1, limit) != [])
  {
    hide CeilDiv, Page, Pages;
    CeilDivBounds(|items|, limit);
    var count := CeilDiv(|items|, limit);
    assert |items| == 0 ==> count == 0 by {
      PageBeyond(|items|, 0, limit);
    }
    PageBeyond(|items|, count, limit);
    PagesArePrefix(items, count, limit);
    assert items[..|items|] == items;
    PageEmpty(items, page, limit);
    PageEmpty(items, page + 1, limit);
    PageEmpty(items, 1, limit);
  }
}
