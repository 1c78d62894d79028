/**
 Snapshot pages: clamped page numbers and sizes, and slices of the ordered rows.
 */
module Pagination {
  import opened Division
  const MAX_PAGE_SIZE: int := 200

  datatype Page<T> = Page(rows: seq<T>, page: int, pageSize: int, totalCount: nat, totalPages: nat,
                          hasPrevious: bool, hasNext: bool)

  function Max(a: int, b: int): int {
    if a < b then b else a
  }

  function Least(a: int, b: int): int {
    if a < b then a else b
  }

  function PageSize(requested: int): (size: int)
    ensures 1 <= size <= MAX_PAGE_SIZE
    ensures 1 <= requested <= MAX_PAGE_SIZE ==> size == requested
  {
    Least(Max(requested, 1), MAX_PAGE_SIZE)
  }

  function TotalPages(count: nat, size: int): nat
    requires size >= 1
  {
    if count == 0 then 0 else Quotient(count + size - 1, size)
  }

  /** A slice that may reach past the end. */
  function Slice<T>(rows: seq<T>, from: int, to: int): seq<T>
    requires 0 <= from <= to
  {
    rows[Least(from, |rows|)..Least(to, |rows|)]
  }

  lemma Offset(page: int, size: int)
    requires page >= 1 && size >= 1
    ensures 0 <= (page - 1) * size
    ensures page * size == (page - 1) * size + size
  {
  }

  /** The page that is served for a requested number. */
  function ServedPage(count: nat, requested: int, size: int): (page: int)
    requires size >= 1
    ensures page >= 1
  {
    var total, page := TotalPages(count, size), Max(requested, 1);
    if total != 0 && page > total then total else page
  }

  function GetDataSnapshot<T>(rows: seq<T>, requested: int, requestedSize: int): Page<T> {
    var size := PageSize(requestedSize);
    var total, page := TotalPages(|rows|, size), ServedPage(|rows|, requested, size);
    Offset(page, size);
    var offset := (page - 1) * size;
    Page(Slice(rows, offset, offset + size), page, size, |rows|, total, page > 1, total > 0 && page < total)
  }

  // ----- ceiling division --------------------------------------------------------------------

  /** The pages are just enough for the rows. */
  lemma JustEnough(count: nat, size: int)
    requires size >= 1 && count > 0
    ensures var total := TotalPages(count, size);
            total >= 1 && (total - 1) * size < count <= total * size
  {
    QuotientBounds(count + size - 1, size);
    var total := TotalPages(count, size);
    Offset(total + 1, size);
    if total >= 1 { Offset(total, size); }
  }

  // ----- one page ------------------------------------------------------------------------------

  /** Any request for a slice with rows gets a page with rows, the nearest one there is. */
  lemma ServedPageHasRows<T>(rows: seq<T>, requested: int, requestedSize: int)
    requires rows != []
    ensures var p := GetDataSnapshot(rows, requested, requestedSize);
            && 1 <= p.page <= p.totalPages && 1 <= |p.rows| <= p.pageSize
            && (1 <= requested <= p.totalPages ==> p.page == requested)
            && (requested < 1 ==> p.page == 1) && (requested > p.totalPages ==> p.page == p.totalPages)
            && (p.hasNext ==> |p.rows| == p.pageSize)
  {
    var p := GetDataSnapshot(rows, requested, requestedSize);
    JustEnough(|rows|, p.pageSize);
    Offset(p.page, p.pageSize);
    Times(p.page - 1, p.totalPages - 1, p.pageSize);
    if p.hasNext { Times(p.page, p.totalPages - 1, p.pageSize); }
  }

  /** Without rows the requested page is not clamped, and a page before it is announced. */
  lemma NoRowsNotClamped<T>(requested: int, requestedSize: int)
    ensures var p := GetDataSnapshot<T>([], requested, requestedSize);
            && p.rows == [] && p.totalPages == 0 && !p.hasNext
            && p.page == Max(requested, 1) && (p.hasPrevious <==> requested > 1)
  {
  }

  /** There is a page before the served one exactly if one is announced, unless there are no rows. */
  lemma PreviousExactly<T>(rows: seq<T>, requested: int, requestedSize: int)
    ensures var p := GetDataSnapshot(rows, requested, requestedSize);
            (p.hasPrevious <==> 1 <= p.page - 1 <= p.totalPages) <==> (rows != [] || requested <= 1)
  {
    if rows != [] { ServedPageHasRows(rows, requested, requestedSize); }
  }

  // ----- all pages ---------------------------------------------------------------------------

  function FirstPages<T>(rows: seq<T>, requestedSize: int, pages: nat): seq<T>
    decreases pages
  {
    if pages == 0 then []
    else FirstPages(rows, requestedSize, pages - 1) + GetDataSnapshot(rows, pages, requestedSize).rows
  }

  lemma PageIsSlice<T>(rows: seq<T>, requestedSize: int, page: int)
    requires 1 <= page <= TotalPages(|rows|, PageSize(requestedSize))
    ensures var size := PageSize(requestedSize);
            && 0 <= (page - 1) * size
            && page * size == (page - 1) * size + size
            && GetDataSnapshot(rows, page, requestedSize).rows
              == Slice(rows, (page - 1) * size, (page - 1) * size + size)
  {
    Offset(page, PageSize(requestedSize));
  }

  lemma {:induction false} FirstPagesArePrefix<T>(rows: seq<T>, requestedSize: int, pages: nat)
    requires pages <= TotalPages(|rows|, PageSize(requestedSize))
    ensures 0 <= pages * PageSize(requestedSize)
    ensures FirstPages(rows, requestedSize, pages) == Slice(rows, 0, pages * PageSize(requestedSize))
    decreases pages
  {
    if pages > 0 {
      FirstPagesArePrefix(rows, requestedSize, pages - 1);
      PageIsSlice(rows, requestedSize, pages);
      SliceInTwo(rows, (pages - 1) * PageSize(requestedSize), PageSize(requestedSize));
    }
  }

  lemma SliceInTwo<T>(rows: seq<T>, offset: int, size: int)
    requires 0 <= offset && 0 <= size
    ensures Slice(rows, 0, offset + size) == Slice(rows, 0, offset) + Slice(rows, offset, offset + size)
  {
  }

  /** The pages, one after the other, are the ordered rows. */
  lemma PagesPartition<T>(rows: seq<T>, requestedSize: int)
    ensures FirstPages(rows, requestedSize, TotalPages(|rows|, PageSize(requestedSize))) == rows
  {
    var size := PageSize(requestedSize);
    FirstPagesArePrefix(rows, requestedSize, TotalPages(|rows|, size));
    if rows != [] { JustEnough(|rows|, size); }
  }

  /** The row at q whole pages and r is the r-th of page q + 1, and on no other page. */
  lemma RowIsOnItsPage<T>(rows: seq<T>, requestedSize: int, q: nat, r: nat, page: int)
    requires r < PageSize(requestedSize) && 0 <= q * PageSize(requestedSize) && q * PageSize(requestedSize) + r < |rows|
    requires 1 <= page <= TotalPages(|rows|, PageSize(requestedSize))
    ensures var size := PageSize(requestedSize);
            var k, p := q * size + r, GetDataSnapshot(rows, page, requestedSize);
            if page == q + 1 then r < |p.rows| && p.rows[r] == rows[k]
            else k < (page - 1) * size || k >= (page - 1) * size + |p.rows|
  {
    var size := PageSize(requestedSize);
    Offset(page, size);
    if page < q + 1 {
      Times(page, q, size);
    } else if page > q + 1 {
      Offset(q + 1, size);
      Times(q + 1, page - 1, size);
    }
  }

  // ----- following the pages -------------------------------------------------------------------

  /** What a client gets that starts at a page and follows the next one as long as there is one. */
  function Follow<T>(rows: seq<T>, requestedSize: int, page: int): seq<Page<T>>
    requires page >= 1
    decreases TotalPages(|rows|, PageSize(requestedSize)) - page
  {
    var p := GetDataSnapshot(rows, page, requestedSize);
    [p] + (if p.hasNext then Follow(rows, requestedSize, p.page + 1) else [])
  }

  function RowsOf<T>(pages: seq<Page<T>>): seq<T>
    decreases |pages|
  {
    if pages == [] then [] else pages[0].rows + RowsOf(pages[1..])
  }

  lemma {:induction false} FollowFrom<T>(rows: seq<T>, requestedSize: int, page: int)
    requires rows != [] && 1 <= page <= TotalPages(|rows|, PageSize(requestedSize))
    ensures var pages := Follow(rows, requestedSize, page);
            && FirstPages(rows, requestedSize, page - 1) + RowsOf(pages) == rows
            && |pages| == TotalPages(|rows|, PageSize(requestedSize)) - page + 1
    decreases TotalPages(|rows|, PageSize(requestedSize)) - page
  {
    var p := GetDataSnapshot(rows, page, requestedSize);
    var before := FirstPages(rows, requestedSize, page - 1);
    FollowStep(rows, requestedSize, page);
    if page < TotalPages(|rows|, PageSize(requestedSize)) {
      FollowFrom(rows, requestedSize, page + 1);
      OnePageMore(before, p, Follow(rows, requestedSize, page + 1));
    } else {
      PagesPartition(rows, requestedSize);
      OnePageMore(before, p, []);
    }
  }

  lemma FollowStep<T>(rows: seq<T>, requestedSize: int, page: int)
    requires 1 <= page <= TotalPages(|rows|, PageSize(requestedSize))
    ensures var p, more := GetDataSnapshot(rows, page, requestedSize),
            page < TotalPages(|rows|, PageSize(requestedSize));
            && Follow(rows, requestedSize, page) == [p] + (if more then Follow(rows, requestedSize, page + 1) else [])
            && FirstPages(rows, requestedSize, page) == FirstPages(rows, requestedSize, page - 1) + p.rows
  {
  }

  lemma OnePageMore<T>(before: seq<T>, p: Page<T>, rest: seq<Page<T>>)
    ensures before + RowsOf([p] + rest) == before + p.rows + RowsOf(rest)
  {
    assert ([p] + rest)[1..] == rest;
  }

  /** Following the pages from the first one shows every row once, in order, and ends after the last. */
  lemma FollowShowsAll<T>(rows: seq<T>, requestedSize: int)
    ensures var pages := Follow(rows, requestedSize, 1);
            && RowsOf(pages) == rows
            && |pages| == Max(TotalPages(|rows|, PageSize(requestedSize)), 1)
  {
    if rows == [] {
      var p := GetDataSnapshot(rows, 1, requestedSize);
      assert Follow(rows, requestedSize, 1) == [p] && [p][1..] == [];
    } else {
      JustEnough(|rows|, PageSize(requestedSize));
      FollowFrom(rows, requestedSize, 1);
    }
  }
}
