/** Page arithmetic of the admin listing (backend/src/models/pagination.rs) over LIMIT/OFFSET. */
module Pagination {
  import opened Options

  const I64_MAX := 0x7fff_ffff_ffff_ffff
  const I64_MIN := -0x8000_0000_0000_0000

  datatype PaginationQuery = PaginationQuery(page: Option<int>, pageSize: Option<int>) {
    /** What the request validation lets through. */
    predicate Valid() {
      && (page.Some? ==> 1 <= page.value <= I64_MAX)
      && (pageSize.Some? ==> 1 <= pageSize.value <= 100)
    }

    function Page(): int {
      if page.Some? then page.value else 1
    }

    function PageSize(): int {
      if pageSize.Some? then pageSize.value else 20
    }

    function Offset(): int {
      SaturatingMul(SaturatingSub(Page(), 1), PageSize())
    }
  }

  function Saturate(n: int): int {
    if n > I64_MAX then I64_MAX else if n < I64_MIN then I64_MIN else n
  }

  function SaturatingSub(a: int, b: int): int {
    Saturate(a - b)
  }

  function SaturatingMul(a: int, b: int): int {
    Saturate(a * b)
  }

  /** `LIMIT limit OFFSET offset` over an ordered result. */
  function Rows<T>(all: seq<T>, limit: nat, offset: nat): seq<T> {
    if offset >= |all| then [] else if offset + limit >= |all| then all[offset..] else all[offset..offset + limit]
  }

  function PageOf<T>(all: seq<T>, q: PaginationQuery): seq<T>
    requires q.Valid()
  {
    OffsetNeverNegative(q);
    Rows(all, q.PageSize(), q.Offset())
  }

  /** The page count the admin screen shows: max(1, ceil(total / size)). */
  function TotalPages(total: nat, size: nat): nat
    requires size >= 1
  {
    var n := (total + size - 1) / size;
    if n < 1 then 1 else n
  }

  function Query(page: int, size: int): PaginationQuery {
    PaginationQuery(Some(page), Some(size))
  }

  lemma OffsetNeverNegative(q: PaginationQuery)
    requires q.Valid()
    ensures 0 <= q.Offset() <= I64_MAX
    ensures q.Offset() == if (q.Page() - 1) * q.PageSize() <= I64_MAX then (q.Page() - 1) * q.PageSize() else I64_MAX
  {
    assert SaturatingSub(q.Page(), 1) == q.Page() - 1;
    NotNegative(q.Page() - 1, q.PageSize());
    SaturatedProduct(q.Page() - 1, q.PageSize());
  }

  lemma NotNegative(a: int, b: int)
    requires a >= 0 && b >= 0
    ensures a * b >= 0
  {
  }

  lemma SaturatedProduct(a: int, b: int)
    requires a * b >= 0
    ensures 0 <= SaturatingMul(a, b) <= I64_MAX
    ensures SaturatingMul(a, b) == if a * b <= I64_MAX then a * b else I64_MAX
  {
  }

  function FirstPages<T>(all: seq<T>, size: int, n: nat): seq<T>
    requires 1 <= size <= 100 && n <= I64_MAX
  {
    if n == 0 then [] else FirstPages(all, size, n - 1) + PageOf(all, Query(n, size))
  }

  /** The first `n` pages are the first n * size rows. */
  lemma {:induction false} PagesArePrefix<T>(all: seq<T>, size: int, n: nat)
    requires 1 <= size <= 100 && n <= I64_MAX && |all| <= I64_MAX
    ensures FirstPages(all, size, n) == if n * size <= |all| then all[..n * size] else all
    decreases n
  {
    if n > 0 {
      PagesArePrefix(all, size, n - 1);
      OnePage(all, size, n);
      NextRows(all, size, (n - 1) * size);
      assert n * size == (n - 1) * size + size;
    }
  }

  /** Page `n` is the `size` rows from (n - 1) * size on, as far as there are any. */
  lemma OnePage<T>(all: seq<T>, size: int, n: nat)
    requires 1 <= size <= 100 && 1 <= n <= I64_MAX && |all| <= I64_MAX
    ensures 0 <= (n - 1) * size && PageOf(all, Query(n, size)) == Rows(all, size, (n - 1) * size)
  {
    OffsetNeverNegative(Query(n, size));
  }

  lemma NextRows<T>(all: seq<T>, size: nat, offset: nat)
    ensures (if offset <= |all| then all[..offset] else all) + Rows(all, size, offset)
         == if offset + size <= |all| then all[..offset + size] else all
  {
  }

  /** Pages 1 to the page count give the whole list, each row once and in order. */
  lemma PagesPartition<T>(all: seq<T>, size: int)
    requires 1 <= size <= 100 && |all| <= I64_MAX
    ensures TotalPages(|all|, size) <= I64_MAX && FirstPages(all, size, TotalPages(|all|, size)) == all
  {
    var n := TotalPages(|all|, size);
    CeilingCovers(|all|, size);
    PagesArePrefix(all, size, n);
  }

  lemma Division(a: nat, size: nat)
    requires size >= 1
    ensures (a / size) * size <= a < (a / size) * size + size && a / size <= a
  {
    assert a == (a / size) * size + a % size;
  }

  lemma CeilingCovers(total: nat, size: nat)
    requires 1 <= size && total <= I64_MAX
    ensures var n := TotalPages(total, size);
            n * size >= total && 1 <= n <= I64_MAX && (n > 1 ==> (n - 1) * size < total)
  {
    var q := (total + size - 1) / size;
    Division(total + size - 1, size);
    assert (q - 1) * size == q * size - size;
    if q >= 1 {
      Grows(q - 1, size);
    }
  }

  lemma Grows(a: nat, size: nat)
    requires size >= 1
    ensures a <= a * size
  {
  }

  lemma EmptyByOffset<T>(all: seq<T>, q: PaginationQuery)
    requires q.Valid() && |all| <= I64_MAX
    ensures PageOf(all, q) == [] <==> (q.Page() - 1) * q.PageSize() >= |all|
  {
    OffsetNeverNegative(q);
  }

  /**
   Every later page is empty, also when its offset saturates; every page up to the count of a non-empty list is not.
   */
  lemma PageIsEmptyExactly<T>(all: seq<T>, q: PaginationQuery)
    requires q.Valid() && |all| <= I64_MAX && all != []
    ensures PageOf(all, q) == [] <==> q.Page() > TotalPages(|all|, q.PageSize())
  {
    EmptyByOffset(all, q);
    CeilingCovers(|all|, q.PageSize());
    Monotone(q.Page() - 1, TotalPages(|all|, q.PageSize()), q.PageSize());
    Monotone(TotalPages(|all|, q.PageSize()) - 1, q.Page() - 1, q.PageSize());
  }

  lemma Monotone(a: int, b: int, size: int)
    requires size >= 1
    ensures a >= b ==> a * size >= b * size
    ensures b >= a ==> b * size >= a * size
  {
  }

  /** What is not asked for is page 1, and 20 rows a page. */
  lemma DefaultPages<T>(all: seq<T>, page: Option<int>, pageSize: Option<int>)
    requires PaginationQuery(page, pageSize).Valid()
    ensures PageOf(all, PaginationQuery(None, pageSize)) == PageOf(all, PaginationQuery(Some(1), pageSize))
    ensures PageOf(all, PaginationQuery(page, None)) == PageOf(all, PaginationQuery(page, Some(20)))
    ensures PageOf(all, PaginationQuery(None, None)) == if |all| <= 20 then all else all[..20]
  {
  }
}
