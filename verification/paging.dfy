/** Cursor pagination against the indexed query service, the loop shape shared
    by every fetch in the backend (`getStakedEvents`, `getClaimedEvents`,
    `getDistributedEvents`, the two trove queries and the snapshot query).

    The backend is modelled by the sequence of entity rows it holds after its
    `where` filters, in ascending id order. A row id is modelled by its rank in
    the backend's id order; the empty cursor `""` is below every id. */
module Paging {

  /** `SUBGRAPH_QUERY_LIMIT`, the `first:` of every paginated query. */
  const PageSize: nat := 1000

  datatype Row<T> = Row(id: nat, item: T)

  /** The cursor sent as `id_gt`: the initial empty string or the id of the last
      row received. */
  datatype Cursor = Origin | After(id: nat)

  predicate IdsAscending<T>(store: seq<Row<T>>) {
    forall i, j :: 0 <= i < j < |store| ==> store[i].id < store[j].id
  }

  predicate IsAbove<T>(r: Row<T>, c: Cursor) {
    c.Origin? || r.id > c.id
  }

  /** The rows matching `id_gt: cursor`, in id order. */
  function Above<T>(store: seq<Row<T>>, c: Cursor): seq<Row<T>> {
    if store == [] then []
    else (if IsAbove(store[0], c) then [store[0]] else []) + Above(store[1..], c)
  }

  /** The backend's answer to one page request: the first `PageSize` rows above
      the cursor. Which rows those are, given the rows already received, is
      stated by `PageAdvances`. */
  function Page<T>(store: seq<Row<T>>, c: Cursor): (page: seq<Row<T>>)
    ensures |page| <= PageSize
  {
    var above := Above(store, c);
    if |above| <= PageSize then above else above[..PageSize]
  }

  lemma {:induction false} AboveOrigin<T>(store: seq<Row<T>>)
    ensures Above(store, Origin) == store
  {
    if store != [] {
      AboveOrigin(store[1..]);
    }
  }

  /** With ascending ids, the rows above the id of row `k - 1` are exactly the
      rows from position `k` on: nothing is skipped and nothing repeats. */
  lemma {:induction false} AboveAfterRow<T>(store: seq<Row<T>>, k: nat)
    requires IdsAscending(store)
    requires 0 < k <= |store|
    ensures Above(store, After(store[k - 1].id)) == store[k..]
  {
    var c := After(store[k - 1].id);
    if k == 1 {
      AllAbove(store[1..], c);
    } else {
      assert !IsAbove(store[0], c);
      assert store[1..][k - 2] == store[k - 1];
      AboveAfterRow(store[1..], k - 1);
    }
  }

  lemma {:induction false} AllAbove<T>(store: seq<Row<T>>, c: Cursor)
    requires forall i :: 0 <= i < |store| ==> IsAbove(store[i], c)
    ensures Above(store, c) == store
  {
    if store != [] {
      AllAbove(store[1..], c);
    }
  }

  /** The rows a query's `where` filter keeps, in id order. */
  function Where<T>(store: seq<Row<T>>, keep: T -> bool): seq<Row<T>> {
    if store == [] then []
    else Where(store[..|store| - 1], keep) + (if keep(store[|store| - 1].item) then [store[|store| - 1]] else [])
  }

  /** The filtered rows are the rows of the store that pass the filter. */
  lemma {:induction false} WhereMembers<T>(store: seq<Row<T>>, keep: T -> bool)
    ensures forall r :: r in Where(store, keep) <==> r in store && keep(r.item)
  {
    if store != [] {
      var init, last := store[..|store| - 1], store[|store| - 1];
      WhereMembers(init, keep);
      assert store == init + [last];
      assert forall r :: r in store <==> r in init || r == last;
    }
  }

  lemma {:induction false} WhereBelow<T>(store: seq<Row<T>>, keep: T -> bool, bound: nat)
    requires forall i :: 0 <= i < |store| ==> store[i].id < bound
    ensures forall i :: 0 <= i < |Where(store, keep)| ==> Where(store, keep)[i].id < bound
  {
    if store != [] {
      WhereBelow(store[..|store| - 1], keep, bound);
    }
  }

  /** Filtering keeps the ascending id order. */
  lemma {:induction false} WhereAscending<T>(store: seq<Row<T>>, keep: T -> bool)
    requires IdsAscending(store)
    ensures IdsAscending(Where(store, keep))
  {
    if store != [] {
      var init, last := store[..|store| - 1], store[|store| - 1];
      WhereAscending(init, keep);
      WhereBelow(init, keep, last.id);
    }
  }

  /** The items of the rows, in order (the `map` from row to record). */
  function Items<T>(rows: seq<Row<T>>): (r: seq<T>)
    ensures |r| == |rows| && forall i :: 0 <= i < |rows| ==> r[i] == rows[i].item
  {
    seq(|rows|, i requires 0 <= i < |rows| => rows[i].item)
  }

  /** One round of the page loop: the page extends the rows received so far by
      the next slice of the store, is short only at the end, and after a full
      page the cursor moved to its last row leaves exactly the rest above it. */
  lemma {:induction false} PageAdvances<T>(store: seq<Row<T>>, c: Cursor, rows: seq<Row<T>>)
    requires IdsAscending(store)
    requires |rows| <= |store| && rows == store[..|rows|] && Above(store, c) == store[|rows|..]
    ensures var page := Page(store, c);
      && |rows| + |page| <= |store| && rows + page == store[..|rows| + |page|]
      && (|page| < PageSize ==> |rows| + |page| == |store|)
      && (|page| == PageSize ==> Above(store, After(page[|page| - 1].id)) == store[|rows| + |page|..])
  {
    var page, k := Page(store, c), |rows|;
    assert page == store[k..k + |page|];
    assert store[..k + |page|] == store[..k] + store[k..k + |page|];
    if |page| == PageSize {
      assert page[|page| - 1] == store[k + |page| - 1];
      AboveAfterRow(store, k + |page|);
    }
  }

  lemma DivUnique(n: nat, q: nat, r: nat)
    requires r < PageSize && n == q * PageSize + r
    ensures n / PageSize == q
  {
  }

  /** The page loop: fetch a page at the cursor, append it, stop at the first
      page shorter than `PageSize`, otherwise move the cursor to the id of the
      page's last row. It returns every row exactly once, in id order, after
      `|store| / PageSize + 1` requests (an exact multiple of the page size
      costs one extra, empty, request). */
  method FetchAll<T>(store: seq<Row<T>>) returns (rows: seq<Row<T>>, requests: nat)
    requires IdsAscending(store)
    ensures rows == store
    ensures requests == |store| / PageSize + 1
  {
    var cursor := Origin;
    rows := [];
    requests := 0;
    AboveOrigin(store);
    while true
      invariant |rows| <= |store| && rows == store[..|rows|]
      invariant Above(store, cursor) == store[|rows|..]
      invariant |rows| == requests * PageSize
      decreases |store| - |rows|
    {
      var page := Page(store, cursor);
      PageAdvances(store, cursor, rows);
      requests := requests + 1;
      rows := rows + page;
      if |page| < PageSize {
        DivUnique(|store|, requests - 1, |page|);
        break;
      }
      cursor := After(page[|page| - 1].id);
    }
  }
}
