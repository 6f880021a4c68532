/**
  The read endpoints: `GET /v1/transactions/{transaction_id}` (`get_transaction`)
  and `GET /v1/transactions` (`get_all_transactions`). Both take the table and
  return only a reply, so neither can change it.
 */
module Queries {
  import opened Wrappers
  import opened Transactions

  /** The cap `get_all_transactions` puts on `limit`. */
  const MAX_LIMIT: int := 1000
  /** The default `limit` of `get_all_transactions`; the default `offset` is 0. */
  const DEFAULT_LIMIT: nat := 100
  /** The largest value PostgreSQL accepts for LIMIT and OFFSET (bigint). */
  const BIGINT_MAX: int := 0x7FFF_FFFF_FFFF_FFFF

  /**
    `SELECT * FROM transactions WHERE transaction_id = id`: the stored row, a 404
    when there is none, a 500 when the database cannot be reached (`dbOk` false)
    or when the driver refuses the id as a parameter (it contains NUL).
   */
  function GetTransaction(store: Store, id: string, dbOk: bool): (r: Result<TransactionView, ApiError>)
    ensures r.Ok? <==> dbOk && NulFree(id) && id in store
    ensures r.Ok? ==> r.value == View(store[id])
    ensures r == Err(NotFound) <==> dbOk && NulFree(id) && id !in store
    ensures r.Err? ==> r.error.Code() == (if dbOk && NulFree(id) then 404 else 500)
  {
    if !dbOk || !NulFree(id) then Err(InternalError)
    else if id !in store then Err(NotFound)
    else Ok(View(store[id]))
  }

  /** `min(limit, 1000)`. */
  function EffectiveLimit(limit: int): (r: int)
    ensures r <= MAX_LIMIT && r <= limit
    ensures r == limit || r == MAX_LIMIT
  {
    if limit < MAX_LIMIT then limit else MAX_LIMIT
  }

  /** How many of `total` rows a LIMIT/OFFSET window keeps. */
  function PageSize(total: nat, limit: int, offset: int): (n: int)
    ensures 0 <= n
    ensures limit >= 0 ==> n <= limit
    ensures offset >= 0 ==> n + offset <= total || n == 0
  {
    if offset >= total || limit <= 0 then 0
    else if limit < total - offset then limit
    else total - offset
  }

  /**
    `order` is one arrangement of the whole table newest first: every row exactly
    once, rows with equal `created_at` in any order.
   */
  ghost predicate ArrangesTable(store: Store, order: seq<Record>) {
    && |order| == |store|
    && NewestFirst(order)
    && DistinctIds(order)
    && (forall x :: x in order ==> Stored(store, x))
    && (forall k {:trigger k in store} :: k in store ==> store[k] in order)
  }

  /** `LIMIT limit OFFSET offset` applied to `order`: skip `offset` rows, keep at most `limit`. */
  function Window(order: seq<Record>, limit: nat, offset: nat): seq<Record> {
    if offset >= |order| then []
    else order[offset..if limit < |order| - offset then offset + limit else |order|]
  }

  /** `page` is what the ordered, limited, offset query can return for the table. */
  ghost predicate IsPage(store: Store, page: seq<Record>, limit: nat, offset: nat) {
    exists order :: ArrangesTable(store, order) && page == Window(order, limit, offset)
  }

  /** The response fields of each row of `rows`, in order. */
  function Views(rows: seq<Record>): (v: seq<TransactionView>) {
    seq(|rows|, i requires 0 <= i < |rows| => View(rows[i]))
  }

  /** `views` is the response body for a page of the table. */
  ghost predicate IsViewPage(store: Store, views: seq<TransactionView>, limit: nat, offset: nat) {
    exists page :: IsPage(store, page, limit, offset) && views == Views(page)
  }

  /** The ids a list reply carries. */
  function PageIds(v: seq<TransactionView>): set<string> {
    set i | 0 <= i < |v| :: v[i].transactionId
  }

  /** Newest first: `created_at` never increases along the sequence. */
  predicate NewestFirst(s: seq<Record>) {
    forall i, j :: 0 <= i < j < |s| ==> s[i].createdAt >= s[j].createdAt
  }

  /** No two rows carry the same `transaction_id`. */
  predicate DistinctIds(s: seq<Record>) {
    forall i, j :: 0 <= i < j < |s| ==> s[i].transactionId != s[j].transactionId
  }

  /** No row of `s` carries `id`. */
  predicate IdAbsent(id: string, s: seq<Record>) {
    forall i :: 0 <= i < |s| ==> s[i].transactionId != id
  }

  /** Places `x` into the newest-first sequence `s`, ahead of the rows no newer than it. */
  function InsertNewestFirst(x: Record, s: seq<Record>): (r: seq<Record>)
    requires NewestFirst(s)
    ensures |r| == |s| + 1
    ensures NewestFirst(r)
    ensures multiset(r) == multiset(s) + multiset{x}
    ensures forall y :: y in r <==> y == x || y in s
  {
    if |s| == 0 || x.createdAt >= s[0].createdAt then
      [x] + s
    else
      var rest := InsertNewestFirst(x, s[1..]);
      assert s == [s[0]] + s[1..];
      assert forall y :: y in s[1..] ==> y.createdAt <= s[0].createdAt;
      PrependKeepsNewestFirst(s[0], rest);
      [s[0]] + rest
  }

  /** A row no older than every row of a newest-first sequence can go in front of it. */
  lemma PrependKeepsNewestFirst(x: Record, s: seq<Record>)
    requires NewestFirst(s)
    requires forall y :: y in s ==> y.createdAt <= x.createdAt
    ensures NewestFirst([x] + s)
  {
    forall i, j | 0 <= i < j < |s| + 1
      ensures ([x] + s)[i].createdAt >= ([x] + s)[j].createdAt
    {
      assert ([x] + s)[j] == s[j - 1];
    }
  }

  /** Inserting a row whose id is new keeps the ids distinct. */
  lemma {:induction false} InsertKeepsIdsDistinct(x: Record, s: seq<Record>)
    requires NewestFirst(s) && DistinctIds(s) && IdAbsent(x.transactionId, s)
    ensures DistinctIds(InsertNewestFirst(x, s))
  {
    if |s| == 0 || x.createdAt >= s[0].createdAt {
      assert InsertNewestFirst(x, s) == [x] + s;
    } else {
      var tail := s[1..];
      var rest := InsertNewestFirst(x, tail);
      InsertKeepsIdsDistinct(x, tail);
      IdsOfMembers(s[0].transactionId, rest, [x] + tail);
      assert InsertNewestFirst(x, s) == [s[0]] + rest;
    }
  }

  /** An id absent from `s` is absent from any sequence made of rows of `s`. */
  lemma IdsOfMembers(id: string, r: seq<Record>, s: seq<Record>)
    requires forall y :: y in r ==> y in s
    requires IdAbsent(id, s)
    ensures IdAbsent(id, r)
  {
    forall i | 0 <= i < |r|
      ensures r[i].transactionId != id
    {
      assert r[i] in r;
    }
  }

  /** The rows of `s` ordered newest first (`ORDER BY created_at DESC`). */
  function SortNewestFirst(s: seq<Record>): (r: seq<Record>)
    ensures |r| == |s|
    ensures NewestFirst(r)
    ensures multiset(r) == multiset(s)
    ensures forall y :: y in r <==> y in s
  {
    if |s| == 0 then
      []
    else
      assert s == [s[0]] + s[1..];
      InsertNewestFirst(s[0], SortNewestFirst(s[1..]))
  }

  /** Sorting keeps the ids distinct. */
  lemma {:induction false} SortKeepsIdsDistinct(s: seq<Record>)
    requires DistinctIds(s)
    ensures DistinctIds(SortNewestFirst(s))
  {
    if |s| > 0 {
      var tail := s[1..];
      var rest := SortNewestFirst(tail);
      SortKeepsIdsDistinct(tail);
      assert IdAbsent(s[0].transactionId, tail);
      IdsOfMembers(s[0].transactionId, rest, tail);
      InsertKeepsIdsDistinct(s[0], rest);
    }
  }

  /** Every row of the table, each once, in no particular order. */
  method CollectRows(store: Store) returns (rows: seq<Record>)
    requires KeysMatch(store)
    ensures |rows| == |store|
    ensures DistinctIds(rows)
    ensures forall i :: 0 <= i < |rows| ==> Stored(store, rows[i])
    ensures forall x :: x in rows ==> Stored(store, x)
    ensures forall k {:trigger k in store} :: k in store ==> store[k] in rows
  {
    rows := [];
    var rest := store.Keys;
    while rest != {}
      invariant rest <= store.Keys
      invariant |rows| + |rest| == |store|
      invariant DistinctIds(rows)
      invariant forall i :: 0 <= i < |rows| ==> Stored(store, rows[i]) && rows[i].transactionId !in rest
      invariant forall k :: k in store && k !in rest ==> store[k] in rows
      decreases rest
    {
      var k :| k in rest;
      rows := rows + [store[k]];
      rest := rest - {k};
    }
  }

  /**
    `SELECT * FROM transactions ORDER BY created_at DESC LIMIT limit OFFSET offset`
    for a non-negative limit and offset. The page is a contiguous window of the
    newest-first order: no row left off the page falls strictly between two rows
    on it, and from offset 0 no row left off is newer than a row on it. Rows with
    equal `created_at` may come in any order.
   */
  method SelectPage(store: Store, limit: nat, offset: nat) returns (page: seq<Record>)
    requires KeysMatch(store)
    ensures |page| == PageSize(|store|, limit, offset)
    ensures NewestFirst(page)
    ensures DistinctIds(page)
    ensures forall i :: 0 <= i < |page| ==> Stored(store, page[i])
    ensures forall k :: k in store && store[k] !in page && |page| > 0 ==>
      store[k].createdAt >= page[0].createdAt || store[k].createdAt <= page[|page| - 1].createdAt
    ensures offset == 0 ==>
      forall k, i :: k in store && store[k] !in page && 0 <= i < |page| ==> store[k].createdAt <= page[i].createdAt
    ensures offset == 0 && limit >= |store| ==> forall k :: k in store ==> store[k] in page
    ensures IsPage(store, page, limit, offset)
  {
    var sorted := OrderedRows(store);
    page := Window(sorted, limit, offset);
    PageOfOrder(store, sorted, limit, offset);
    WindowIsSlice(sorted, limit, offset);
    if page != [] {
      var end := offset + |page|;
      WindowOfTable(store, sorted, offset, end, page);
    }
  }

  /** The window of an arrangement of the table is a page of it. */
  lemma PageOfOrder(store: Store, order: seq<Record>, limit: nat, offset: nat)
    requires |order| == |store| && NewestFirst(order) && DistinctIds(order)
    requires forall x :: x in order ==> Stored(store, x)
    requires forall k {:trigger k in store} :: k in store ==> store[k] in order
    ensures IsPage(store, Window(order, limit, offset), limit, offset)
  {
    assert ArrangesTable(store, order);
  }

  /** The window is the slice of `order` that starts at `offset` and has the length LIMIT/OFFSET keeps. */
  lemma WindowIsSlice(order: seq<Record>, limit: nat, offset: nat)
    ensures |Window(order, limit, offset)| == PageSize(|order|, limit, offset)
    ensures Window(order, limit, offset) != [] ==>
      var n := |Window(order, limit, offset)|;
      offset + n <= |order| && Window(order, limit, offset) == order[offset..offset + n]
  {
  }

  /** A window of the whole table ordered newest first, and the rows it leaves out. */
  lemma WindowOfTable(store: Store, sorted: seq<Record>, lo: nat, hi: nat, page: seq<Record>)
    requires NewestFirst(sorted) && DistinctIds(sorted)
    requires forall x :: x in sorted ==> Stored(store, x)
    requires forall k {:trigger k in store} :: k in store ==> store[k] in sorted
    requires lo < hi <= |sorted| && page == sorted[lo..hi]
    ensures NewestFirst(page) && DistinctIds(page)
    ensures forall i :: 0 <= i < |page| ==> Stored(store, page[i])
    ensures forall k :: k in store && store[k] !in page ==>
      store[k].createdAt >= page[0].createdAt || store[k].createdAt <= page[|page| - 1].createdAt
    ensures lo == 0 ==>
      forall k, i :: k in store && store[k] !in page && 0 <= i < |page| ==> store[k].createdAt <= page[i].createdAt
    ensures lo == 0 && hi == |sorted| ==> forall k :: k in store ==> store[k] in page
  {
    WindowKeepsOrder(sorted, lo, hi);
    assert page[0] == sorted[lo] && page[|page| - 1] == sorted[hi - 1];
    forall k | k in store && store[k] !in page
      ensures store[k].createdAt >= page[0].createdAt || store[k].createdAt <= page[|page| - 1].createdAt
      ensures lo == 0 ==> forall i :: 0 <= i < |page| ==> store[k].createdAt <= page[i].createdAt
    {
      WindowLeavesOut(sorted, lo, hi, store[k]);
    }
  }

  /** Every row of the table, each once, newest first. */
  method OrderedRows(store: Store) returns (sorted: seq<Record>)
    requires KeysMatch(store)
    ensures |sorted| == |store|
    ensures NewestFirst(sorted) && DistinctIds(sorted)
    ensures forall x :: x in sorted ==> Stored(store, x)
    ensures forall k {:trigger k in store} :: k in store ==> store[k] in sorted
  {
    var rows := CollectRows(store);
    sorted := SortNewestFirst(rows);
    SortKeepsIdsDistinct(rows);
  }

  /** A window of a newest-first sequence with distinct ids is one too. */
  lemma WindowKeepsOrder(sorted: seq<Record>, lo: nat, hi: nat)
    requires NewestFirst(sorted) && DistinctIds(sorted)
    requires lo <= hi <= |sorted|
    ensures NewestFirst(sorted[lo..hi]) && DistinctIds(sorted[lo..hi])
    ensures forall x :: x in sorted[lo..hi] ==> x in sorted
  {
  }

  /** The elements left out of a window of a newest-first sequence. */
  lemma WindowLeavesOut(sorted: seq<Record>, lo: nat, hi: nat, x: Record)
    requires NewestFirst(sorted)
    requires lo < hi <= |sorted|
    requires x in sorted && x !in sorted[lo..hi]
    ensures x.createdAt >= sorted[lo].createdAt || x.createdAt <= sorted[hi - 1].createdAt
    ensures lo == 0 ==> forall i :: 0 <= i < hi - lo ==> x.createdAt <= sorted[lo..hi][i].createdAt
  {
    forall j | lo <= j < hi
      ensures sorted[j] in sorted[lo..hi]
    {
      assert sorted[lo..hi][j - lo] == sorted[j];
    }
    var j :| 0 <= j < |sorted| && sorted[j] == x;
    assert j < lo || hi <= j;
  }

  /**
    `get_all_transactions(limit, offset)`. The limit is capped at 1000; a negative
    limit or offset, an offset beyond bigint, or an unreachable database all end
    in a 500. Otherwise the reply is the response fields of the rows that
    `ORDER BY created_at DESC LIMIT min(limit, 1000) OFFSET offset` selects from
    some newest-first arrangement of the table.
   */
  method GetAllTransactions(store: Store, limit: int, offset: int, dbOk: bool)
    returns (r: Result<seq<TransactionView>, ApiError>)
    requires KeysMatch(store)
    ensures r.Ok? <==> dbOk && limit >= 0 && 0 <= offset <= BIGINT_MAX
    ensures r.Err? ==> r.error == InternalError
    ensures r.Ok? ==> IsViewPage(store, r.value, EffectiveLimit(limit) as nat, offset as nat)
    ensures r.Ok? ==> |r.value| <= EffectiveLimit(limit) && |r.value| <= MAX_LIMIT
    ensures r.Ok? ==> |r.value| == PageSize(|store|, EffectiveLimit(limit), offset)
    ensures r.Ok? ==> forall i :: 0 <= i < |r.value| ==>
      r.value[i].transactionId in store && r.value[i] == View(store[r.value[i].transactionId])
    ensures r.Ok? ==> forall i, j :: 0 <= i < j < |r.value| ==>
      r.value[i].createdAt >= r.value[j].createdAt && r.value[i].transactionId != r.value[j].transactionId
    ensures r.Ok? ==> forall k :: k in store && k !in PageIds(r.value) && |r.value| > 0 ==>
      store[k].createdAt >= r.value[0].createdAt || store[k].createdAt <= r.value[|r.value| - 1].createdAt
    ensures r.Ok? && offset == 0 ==> forall k, i :: k in store && k !in PageIds(r.value) && 0 <= i < |r.value| ==>
      store[k].createdAt <= r.value[i].createdAt
  {
    var effective := EffectiveLimit(limit);
    if !dbOk || effective < 0 || offset < 0 || offset > BIGINT_MAX {
      return Err(InternalError);
    }
    var views := SelectViews(store, effective, offset);
    return Ok(views);
  }

  /**
    The rows of the LIMIT/OFFSET window, newest first, as the response fields
    the endpoint sends for them.
   */
  method SelectViews(store: Store, limit: nat, offset: nat) returns (views: seq<TransactionView>)
    requires KeysMatch(store)
    ensures IsViewPage(store, views, limit, offset)
    ensures |views| == PageSize(|store|, limit, offset)
    ensures forall i :: 0 <= i < |views| ==>
      views[i].transactionId in store && views[i] == View(store[views[i].transactionId])
    ensures forall i, j :: 0 <= i < j < |views| ==>
      views[i].createdAt >= views[j].createdAt && views[i].transactionId != views[j].transactionId
    ensures forall k :: k in store && k !in PageIds(views) && |views| > 0 ==>
      store[k].createdAt >= views[0].createdAt || store[k].createdAt <= views[|views| - 1].createdAt
    ensures offset == 0 ==> forall k, i :: k in store && k !in PageIds(views) && 0 <= i < |views| ==>
      store[k].createdAt <= views[i].createdAt
  {
    var page := SelectPage(store, limit, offset);
    views := Views(page);
    ViewsOfPage(store, page, views, limit, offset);
    ViewsLeaveOut(store, page, views, offset == 0);
  }

  /** What a page of rows says about the response fields the endpoint sends for it. */
  lemma ViewsOfPage(store: Store, page: seq<Record>, v: seq<TransactionView>, limit: nat, offset: nat)
    requires KeysMatch(store)
    requires IsPage(store, page, limit, offset)
    requires NewestFirst(page) && DistinctIds(page)
    requires forall i :: 0 <= i < |page| ==> Stored(store, page[i])
    requires v == Views(page)
    ensures IsViewPage(store, v, limit, offset)
    ensures forall i :: 0 <= i < |v| ==>
      v[i].transactionId in store && v[i] == View(store[v[i].transactionId])
    ensures forall i, j :: 0 <= i < j < |v| ==>
      v[i].createdAt >= v[j].createdAt && v[i].transactionId != v[j].transactionId
  {
  }

  /** Where the rows the reply leaves out stand relative to the ones it carries. */
  lemma ViewsLeaveOut(store: Store, page: seq<Record>, v: seq<TransactionView>, fromTop: bool)
    requires KeysMatch(store)
    requires forall k :: k in store && store[k] !in page && |page| > 0 ==>
      store[k].createdAt >= page[0].createdAt || store[k].createdAt <= page[|page| - 1].createdAt
    requires fromTop ==>
      forall k, i :: k in store && store[k] !in page && 0 <= i < |page| ==> store[k].createdAt <= page[i].createdAt
    requires v == Views(page)
    ensures forall k :: k in store && k !in PageIds(v) && |v| > 0 ==>
      store[k].createdAt >= v[0].createdAt || store[k].createdAt <= v[|v| - 1].createdAt
    ensures fromTop ==> forall k, i :: k in store && k !in PageIds(v) && 0 <= i < |v| ==>
      store[k].createdAt <= v[i].createdAt
  {
    LeftOffPage(store, page);
  }

  /** A row whose id the reply does not carry is not on the page. */
  lemma LeftOffPage(store: Store, page: seq<Record>)
    requires KeysMatch(store)
    ensures forall k :: k in store && k !in PageIds(Views(page)) ==> store[k] !in page
  {
    var v := Views(page);
    forall k, i | k in store && k !in PageIds(v) && 0 <= i < |page|
      ensures page[i] != store[k]
    {
      assert v[i].transactionId in PageIds(v);
    }
  }

  /**
    `GET /v1/transactions` without query parameters: `limit` defaults to 100 and
    `offset` to 0, so the reply is the 100 newest rows, or all rows when there
    are fewer.
   */
  method ListDefault(store: Store, dbOk: bool) returns (r: Result<seq<TransactionView>, ApiError>)
    requires KeysMatch(store)
    ensures r.Ok? <==> dbOk
    ensures r.Ok? ==> IsViewPage(store, r.value, DEFAULT_LIMIT, 0)
    ensures r.Ok? ==> |r.value| == if |store| < DEFAULT_LIMIT then |store| else DEFAULT_LIMIT
    ensures r.Ok? ==> forall k, i :: k in store && k !in PageIds(r.value) && 0 <= i < |r.value| ==>
      store[k].createdAt <= r.value[i].createdAt
  {
    r := GetAllTransactions(store, DEFAULT_LIMIT, 0, dbOk);
  }
}
