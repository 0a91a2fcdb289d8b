/** Page arithmetic (src/common/utils/pagination.util.ts), for integer options. */
module Pagination {
  import opened Prelude

  const DEFAULT_PAGE := 1
  const DEFAULT_LIMIT := 20
  const MAX_LIMIT := 100

  datatype Options = Options(page: int, limit: int)

  datatype Meta = Meta(total: nat, page: int, limit: int, totalPages: int, hasNextPage: bool, hasPreviousPage: bool)

  /** `Number(x) || fallback`: a missing value, one that is not a number and zero give the fallback. */
  function OrDefault(x: Option<int>, fallback: int): int {
    if x.None? || x.value == 0 then fallback else x.value
  }

  function Max(a: int, b: int): int {
    if a > b then a else b
  }

  function Min(a: int, b: int): int {
    if a < b then a else b
  }

  function Normalize(page: Option<int>, limit: Option<int>): (o: Options)
    ensures o.page >= 1 && 1 <= o.limit <= 100
    ensures o.page == if page.Some? && page.value >= 1 then page.value else 1
    ensures limit.None? || limit.value == 0 ==> o.limit == 20
    ensures limit.Some? && 1 <= limit.value <= 100 ==> o.limit == limit.value
    ensures limit.Some? && limit.value < 0 ==> o.limit == 1
    ensures limit.Some? && limit.value > 100 ==> o.limit == 100
  {
    Options(Max(1, OrDefault(page, DEFAULT_PAGE)), Min(MAX_LIMIT, Max(1, OrDefault(limit, DEFAULT_LIMIT))))
  }

  /** Skip and take of one page. */
  function ToPrisma(o: Options): (int, int) {
    ((o.page - 1) * o.limit, o.limit)
  }

  function CeilDiv(a: int, b: int): int
    requires b > 0
  {
    (a + b - 1) / b
  }

  function Paginate(total: nat, o: Options): Meta
    requires o.limit > 0
  {
    var totalPages := CeilDiv(total, o.limit);
    Meta(total, o.page, o.limit, totalPages, o.page < totalPages, o.page > 1)
  }

  /** The rows a query with skip and take returns. */
  function Query<T>(rows: seq<T>, skip: int, take: int): seq<T>
    requires skip >= 0 && take >= 0
  {
    if skip >= |rows| then [] else if skip + take >= |rows| then rows[skip..] else rows[skip..skip + take]
  }

  function Page<T>(rows: seq<T>, o: Options): seq<T>
    requires o.page >= 1 && o.limit >= 1
  {
    PageStart(o);
    Query(rows, ToPrisma(o).0, ToPrisma(o).1)
  }

  lemma PageStart(o: Options)
    requires o.page >= 1 && o.limit >= 1
    ensures (o.page - 1) * o.limit >= 0
  {
  }

  /** The pages 1 to n, one after the other. */
  function Pages<T>(rows: seq<T>, n: nat, limit: int): seq<T>
    requires limit >= 1
  {
    if n == 0 then [] else Pages(rows, n - 1, limit) + Page(rows, Options(n, limit))
  }

  lemma {:induction false} PagesAreAPrefix<T>(rows: seq<T>, n: nat, limit: int)
    requires limit >= 1
    ensures n * limit >= 0
    ensures Pages(rows, n, limit) == if n * limit >= |rows| then rows else rows[..n * limit]
  {
    if n == 0 {
    } else {
      PagesAreAPrefix(rows, n - 1, limit);
      assert n * limit == (n - 1) * limit + limit;
      var skip := (n - 1) * limit;
      if skip < |rows| {
        if skip + limit >= |rows| {
          assert rows[..skip] + rows[skip..] == rows;
        } else {
          assert rows[..skip] + rows[skip..skip + limit] == rows[..skip + limit];
        }
      }
    }
  }

  lemma CeilDivIsLeast(total: nat, limit: int)
    requires limit >= 1
    ensures CeilDiv(total, limit) >= 0 && CeilDiv(total, limit) * limit >= total
    ensures forall p :: p < CeilDiv(total, limit) <==> p * limit < total
  {
    var n := CeilDiv(total, limit);
    var r := (total + limit - 1) % limit;
    assert total + limit - 1 == limit * n + r;
    assert n * limit == limit * n == total + (limit - 1 - r);
    forall p ensures p < n <==> p * limit < total {
      Multiples(p, n, limit);
      Multiples(n, p, limit);
    }
  }

  lemma {:induction false} Multiples(p: int, q: int, limit: int)
    requires limit >= 1
    ensures p < q ==> p * limit <= q * limit - limit
    ensures p == q ==> p * limit == q * limit
    decreases q - p
  {
    if p >= q {
    } else {
      assert q * limit == (q - 1) * limit + limit;
      Multiples(p, q - 1, limit);
    }
  }

  /** The announced pages, in order, are exactly the list they cut up. */
  lemma PagesRebuildTheList<T>(rows: seq<T>, limit: int)
    requires limit >= 1
    ensures Paginate(|rows|, Options(1, limit)).totalPages >= 0
    ensures Pages(rows, Paginate(|rows|, Options(1, limit)).totalPages, limit) == rows
  {
    CeilDivIsLeast(|rows|, limit);
    PagesAreAPrefix(rows, CeilDiv(|rows|, limit), limit);
  }

  /** The item at index i is on page i / limit + 1 and on no other. */
  lemma ItemIsOnOnePage<T>(rows: seq<T>, o: Options, i: nat)
    requires o.page >= 1 && o.limit >= 1 && i < |rows|
    ensures (o.page - 1) * o.limit <= i < o.page * o.limit <==> o.page == i / o.limit + 1
    ensures o.page == i / o.limit + 1 ==>
              var skip := (o.page - 1) * o.limit;
              0 <= i - skip < |Page(rows, o)| && Page(rows, o)[i - skip] == rows[i]
  {
    var q := i / o.limit;
    assert i == o.limit * q + i % o.limit;
    assert o.limit * q == q * o.limit;
    Multiples(o.page - 1, q, o.limit);
    Multiples(q, o.page - 1, o.limit);
    assert o.page * o.limit == (o.page - 1) * o.limit + o.limit;
    PageStart(o);
  }

  /** A next page is announced exactly when items remain, whatever page was asked for. */
  lemma NextPageIffItemsRemain(total: nat, page: Option<int>, limit: Option<int>)
    ensures var o := Normalize(page, limit);
            && (Paginate(total, o).hasNextPage <==> o.page * o.limit < total)
            && (Paginate(total, o).hasPreviousPage <==> ToPrisma(o).0 > 0)
  {
    var o := Normalize(page, limit);
    CeilDivIsLeast(total, o.limit);
    Multiples(0, o.page - 1, o.limit);
  }
}
