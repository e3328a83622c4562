/** Pagination of an ordered result (app/db/repositories/base.py). */
module Pages {
  datatype Page<T> = Page(items: seq<T>, total: nat, page: int, perPage: int) {
    /** Never fewer than one page; a page size of zero also gives one. */
    function PageCount(): int
      requires 0 <= perPage
    {
      if perPage == 0 then 1 else
        var whole := (total + perPage - 1) / perPage;
        if whole < 1 then 1 else whole
    }

    predicate HasNext()
      requires 0 <= perPage
    {
      page < PageCount()
    }
  }

  function AtLeastOne(n: int): (m: int)
    ensures m >= 1
  {
    if n < 1 then 1 else n
  }

  /** `limit` and `offset` of a query: at most `limit` rows, none past the end. */
  function Rows<T>(rows: seq<T>, offset: nat, limit: nat): seq<T> {
    if offset >= |rows| then []
    else if offset + limit >= |rows| then rows[offset..]
    else rows[offset..offset + limit]
  }

  /** `paginate`: page and size are raised to at least one. */
  function Paginate<T>(rows: seq<T>, page: int, perPage: int): Page<T> {
    var p, n := AtLeastOne(page), AtLeastOne(perPage);
    OffsetIsNat(p, n);
    Page(Rows(rows, (p - 1) * n, n), |rows|, p, n)
  }

  lemma OffsetIsNat(p: int, n: int)
    requires p >= 1 && n >= 1
    ensures 0 <= (p - 1) * n
  {
  }

  /** The number of pages is the least that holds every row. */
  lemma PageCountIsLeast(total: nat, n: int, count: int)
    requires n >= 1 && count == (total + n - 1) / n
    ensures total <= count * n && (if total == 0 then count == 0 else (count - 1) * n < total)
  {
    assert total + n - 1 == count * n + (total + n - 1) % n;
    assert (count - 1) * n == count * n - n;
  }

  /** How many pages there are: the least number that holds every row, but one at least, and
      one for a page size of zero. */
  lemma PageCountHoldsEveryRow<T>(shown: Page<T>)
    requires 0 <= shown.perPage
    ensures shown.PageCount() >= 1 && (shown.perPage == 0 ==> shown.PageCount() == 1)
    ensures shown.perPage > 0 ==> shown.total <= shown.PageCount() * shown.perPage
    ensures shown.perPage > 0 && shown.PageCount() > 1 ==> (shown.PageCount() - 1) * shown.perPage < shown.total
  {
    if shown.perPage > 0 {
      PageCountIsLeast(shown.total, shown.perPage, (shown.total + shown.perPage - 1) / shown.perPage);
    }
  }

  /** A page or a size below one is read as one. */
  lemma SmallNumbersAreRaised<T>(rows: seq<T>, page: int, perPage: int)
    ensures page < 1 ==> Paginate(rows, page, perPage) == Paginate(rows, 1, perPage)
    ensures perPage < 1 ==> Paginate(rows, page, perPage) == Paginate(rows, page, 1)
  {
  }

  /** A page has a successor exactly when there are rows behind it. */
  lemma NextExactlyWhenRowsAreLeft<T>(rows: seq<T>, page: int, perPage: int)
    requires page >= 1 && perPage >= 1
    ensures Paginate(rows, page, perPage).HasNext() <==> page * perPage < |rows|
  {
    var count := (|rows| + perPage - 1) / perPage;
    PageCountIsLeast(|rows|, perPage, count);
    if page < count {
      Scale(page, count - 1, perPage);
    } else {
      Scale(count, page, perPage);
    }
  }

  lemma Scale(a: int, b: int, n: int)
    requires a <= b && n >= 1
    ensures a * n <= b * n
  {
  }

  /** Everything shown by following `has_next` from a page on. */
  function Onwards<T>(rows: seq<T>, page: int, perPage: int): seq<T>
    requires page >= 1 && perPage >= 1
    decreases |rows| - page
  {
    NextExactlyWhenRowsAreLeft(rows, page, perPage);
    Scale(1, perPage, page);
    var shown := Paginate(rows, page, perPage);
    shown.items + if shown.HasNext() then Onwards(rows, page + 1, perPage) else []
  }

  /** Following `has_next` from the first page shows every row once, in order, and no page
      before the last is short. */
  lemma {:induction false} PagesCoverTheRows<T>(rows: seq<T>, page: int, perPage: int)
    requires page >= 1 && perPage >= 1 && (page - 1) * perPage <= |rows|
    ensures Onwards(rows, page, perPage) == rows[(page - 1) * perPage..]
    ensures Paginate(rows, page, perPage).HasNext() ==> |Paginate(rows, page, perPage).items| == perPage
    decreases |rows| - page
  {
    NextExactlyWhenRowsAreLeft(rows, page, perPage);
    Scale(1, perPage, page);
    assert (page - 1) * perPage + perPage == page * perPage;
    if Paginate(rows, page, perPage).HasNext() {
      PagesCoverTheRows(rows, page + 1, perPage);
    }
  }

  /** The number of pages shown by following `has_next` from a page on. */
  function Visited<T>(rows: seq<T>, page: int, perPage: int): nat
    requires page >= 1 && perPage >= 1
    decreases |rows| - page
  {
    NextExactlyWhenRowsAreLeft(rows, page, perPage);
    Scale(1, perPage, page);
    1 + if Paginate(rows, page, perPage).HasNext() then Visited(rows, page + 1, perPage) else 0
  }

  /** From the first page on these are exactly as many as the page count says. */
  lemma {:induction false} VisitsEveryPage<T>(rows: seq<T>, page: int, perPage: int)
    requires page >= 1 && perPage >= 1 && page <= Paginate(rows, page, perPage).PageCount()
    ensures Visited(rows, page, perPage) == Paginate(rows, page, perPage).PageCount() - page + 1
    decreases |rows| - page
  {
    NextExactlyWhenRowsAreLeft(rows, page, perPage);
    Scale(1, perPage, page);
    if Paginate(rows, page, perPage).HasNext() {
      VisitsEveryPage(rows, page + 1, perPage);
    }
  }
}
