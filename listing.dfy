/** The listing arithmetic the catalog and order listings share: query
    parameters with their fallbacks, the skip/limit window over the sorted
    matches, the page count, and the 404 for an empty page. */
module Listing {

  import opened Common

  const DEFAULT_PAGE := 1
  const DEFAULT_LIMIT := 10
  const DEFAULT_MIN := 0
  const DEFAULT_MAX := 1000000

  /** The query string as the handler sees it: integer parameters are the
      result of `parseInt`, None standing for NaN (missing or not a number). */
  datatype Params = Params(
    page: Option<int>,
    limit: Option<int>,
    search: Option<string>,
    sort: Option<string>,
    order: Option<string>,
    min: Option<int>,
    max: Option<int>)

  /** The query after every fallback has been applied. `direction` is the
      sort direction: 1 ascending, -1 descending. */
  datatype Query = Query(
    page: int,
    limit: int,
    skip: int,
    search: string,
    sort: string,
    direction: int,
    min: int,
    max: int)

  /** `parseInt(v) || fallback`: NaN and 0 are falsy and take the fallback. */
  function IntOr(v: Option<int>, fallback: int): int {
    if v.Some? && v.value != 0 then v.value else fallback
  }

  function Abs(x: int): nat {
    if x < 0 then -x else x
  }

  /** The parameter block at the top of both listing handlers. */
  function Resolve(p: Params, defaultSort: string): (q: Query)
    ensures q.page != 0 && q.limit != 0
    ensures q.page == (if p.page.None? || p.page == Some(0) then DEFAULT_PAGE else p.page.value)
    ensures q.limit == (if p.limit.None? || p.limit == Some(0) then DEFAULT_LIMIT else p.limit.value)
    ensures q.skip == (q.page - 1) * q.limit
    ensures q.search == (if TruthyString(p.search) then p.search.value else "")
    ensures q.sort == (if TruthyString(p.sort) then p.sort.value else defaultSort)
    ensures q.direction == -1 <==> p.order == Some("desc")
    ensures q.direction == 1 || q.direction == -1
    ensures q.min == (if p.min.None? then DEFAULT_MIN else p.min.value)
    ensures q.max == (if p.max.None? || p.max == Some(0) then DEFAULT_MAX else p.max.value)
  {
    var page := IntOr(p.page, DEFAULT_PAGE);
    var limit := IntOr(p.limit, DEFAULT_LIMIT);
    Query(
      page, limit, (page - 1) * limit,
      if TruthyString(p.search) then p.search.value else "",
      if TruthyString(p.sort) then p.sort.value else defaultSort,
      if p.order == Some("desc") then -1 else 1,
      IntOr(p.min, DEFAULT_MIN),
      IntOr(p.max, DEFAULT_MAX))
  }

  /** `.skip(skip).limit(limit)` over the sorted matches. A negative limit
      asks for at most its absolute value. */
  function Window<T>(s: seq<T>, skip: nat, limit: int): (r: seq<T>)
    requires limit != 0
    ensures |r| <= Abs(limit)
    ensures skip >= |s| ==> r == []
    ensures skip < |s| ==> |r| == if |s| - skip < Abs(limit) then |s| - skip else Abs(limit)
    ensures forall i :: 0 <= i < |r| ==> skip + i < |s| && r[i] == s[skip + i]
  {
    if skip >= |s| then []
    else if |s| - skip < Abs(limit) then s[skip..]
    else s[skip..skip + Abs(limit)]
  }

  /** `Math.ceil(count / limit)` for a non-zero integer limit. */
  function CeilDiv(count: nat, limit: int): (r: int)
    requires limit != 0
    ensures limit > 0 ==> (r - 1) * limit < count <= r * limit
    ensures limit < 0 ==> r * limit <= count < (r - 1) * limit
  {
    if limit > 0 then
      CeilDivPositive(count, limit);
      (count + limit - 1) / limit
    else
      FloorDivPositive(count, -limit);
      -(count / -limit)
  }

  lemma CeilDivPositive(count: nat, limit: int)
    requires limit > 0
    ensures ((count + limit - 1) / limit - 1) * limit < count <= ((count + limit - 1) / limit) * limit
  {
    var q, m := (count + limit - 1) / limit, (count + limit - 1) % limit;
    assert count + limit - 1 == q * limit + m;
    assert (q - 1) * limit == q * limit - limit;
  }

  lemma FloorDivPositive(count: nat, l: int)
    requires l > 0
    ensures (count / l) * l <= count < (count / l + 1) * l
  {
    var q, m := count / l, count % l;
    assert count == q * l + m;
    assert (q + 1) * l == q * l + l;
  }

  /** The body of a listing reply. */
  datatype Page<T> = Page(count: int, page: int, limit: int, totalPages: int, items: seq<T>)

  /** A listing handler after its parameter block: the matches are the
      documents `keep` accepts, in store order; the reply holds the window
      of the requested page, the unpaged count and the page count. A
      negative skip makes the store refuse the query. */
  function ListPage<T(!new)>(docs: seq<T>, keep: T -> bool, q: Query, none: string): (r: Reply<Page<T>>)
    requires q.limit != 0
    ensures q.skip < 0 ==> r == Failure(SERVER_ERROR, "Server error")
    ensures q.skip >= 0 ==> (r.Failure? <==> Window(Filter(docs, keep), q.skip, q.limit) == [])
    ensures q.skip >= 0 && r.Failure? ==> r == Failure(NOT_FOUND, none)
    ensures r.Success? ==>
      && r.status == OK
      && q.skip >= 0
      && r.body.count == |Filter(docs, keep)|
      && r.body.page == q.page && r.body.limit == q.limit
      && r.body.totalPages == CeilDiv(r.body.count, q.limit)
      && r.body.items == Window(Filter(docs, keep), q.skip, q.limit)
      && r.body.items != []
      && |r.body.items| <= Abs(q.limit)
    ensures r.Success? ==> forall x :: x in r.body.items ==> x in docs && keep(x)
  {
    if q.skip < 0 then Failure(SERVER_ERROR, "Server error")
    else
      var matches := Filter(docs, keep);
      var items := Window(matches, q.skip, q.limit);
      if items == [] then Failure(NOT_FOUND, none)
      else
        assert forall x :: x in items ==> x in matches;
        Success(OK, Page(|matches|, q.page, q.limit, CeilDiv(|matches|, q.limit), items))
  }

  /** The ids a sorted `find` walks: every key of the store, each once. */
  predicate ListsEveryKey<K, V>(ids: seq<K>, store: map<K, V>) {
    && (forall i :: 0 <= i < |ids| ==> ids[i] in store)
    && (forall i, j :: 0 <= i < j < |ids| ==> ids[i] != ids[j])
    && (forall k :: k in store ==> k in ids)
  }

  /** The stored documents of `ids`, in that order. */
  function InOrder<K, V>(ids: seq<K>, store: map<K, V>): (r: seq<V>)
    requires forall i :: 0 <= i < |ids| ==> ids[i] in store
    ensures |r| == |ids|
    ensures forall i :: 0 <= i < |ids| ==> r[i] == store[ids[i]]
  {
    if ids == [] then [] else [store[ids[0]]] + InOrder(ids[1..], store)
  }

  /** `countDocuments(filter)`: how many stored documents the filter accepts. */
  function CountMatching<K, V>(store: map<K, V>, keep: V -> bool): nat {
    |set k | k in store && keep(store[k])|
  }

  /** Filtering the documents of distinct stored ids counts the ids whose
      document is accepted. */
  lemma {:induction false} FilterInOrderCount<K, V(!new)>(ids: seq<K>, store: map<K, V>, keep: V -> bool)
    requires forall i :: 0 <= i < |ids| ==> ids[i] in store
    requires forall i, j :: 0 <= i < j < |ids| ==> ids[i] != ids[j]
    ensures |Filter(InOrder(ids, store), keep)| == |set k | k in store && k in ids && keep(store[k])|
  {
    if ids == [] {
      assert (set k | k in store && k in ids && keep(store[k])) == {};
    } else {
      var docs := InOrder(ids, store);
      assert docs[1..] == InOrder(ids[1..], store);
      FilterInOrderCount(ids[1..], store, keep);
      var rest := set k | k in store && k in ids[1..] && keep(store[k]);
      var all := set k | k in store && k in ids && keep(store[k]);
      assert ids[0] !in ids[1..] by {
        forall j | 0 <= j < |ids| - 1 ensures ids[1..][j] != ids[0] {
          assert ids[1..][j] == ids[j + 1];
        }
      }
      if keep(store[ids[0]]) {
        assert all == rest + {ids[0]};
      } else {
        assert all == rest;
      }
    }
  }

  /** Over a walk of every key once, the filtered documents number exactly
      the count of the store under the same filter. */
  lemma CountOfEveryKey<K, V(!new)>(ids: seq<K>, store: map<K, V>, keep: V -> bool)
    requires ListsEveryKey(ids, store)
    ensures |Filter(InOrder(ids, store), keep)| == CountMatching(store, keep)
  {
    FilterInOrderCount(ids, store, keep);
    assert (set k | k in store && k in ids && keep(store[k])) == (set k | k in store && keep(store[k]));
  }

  /** Pages 1 to `pages`, one after the other. */
  function PageRun<T>(s: seq<T>, limit: int, pages: nat): seq<T>
    requires limit > 0
  {
    if pages == 0 then [] else PageRun(s, limit, pages - 1) + Window(s, (pages - 1) * limit, limit)
  }

  /** The first `pages` pages are the prefix of the matches they span. */
  lemma {:induction false} PageRunPrefix<T>(s: seq<T>, limit: int, pages: nat)
    requires limit > 0
    ensures PageRun(s, limit, pages) == s[..if pages * limit < |s| then pages * limit else |s|]
  {
    if pages > 0 {
      PageRunPrefix(s, limit, pages - 1);
      var start := (pages - 1) * limit;
      assert pages * limit == start + limit;
      var w := Window(s, start, limit);
      if start < |s| {
        var end := if pages * limit < |s| then pages * limit else |s|;
        assert w == s[start..end];
        assert s[..end] == s[..start] + s[start..end];
      }
    }
  }

  /** Reading pages 1 to totalPages in order yields every match exactly once,
      in store order. */
  lemma PagesCoverMatches<T>(s: seq<T>, limit: int)
    requires limit > 0
    ensures PageRun(s, limit, CeilDiv(|s|, limit)) == s
  {
    PageRunPrefix(s, limit, CeilDiv(|s|, limit));
  }

  /** With a positive limit, a page at or after the first is empty, and so
      answered with 404, exactly when its number exceeds totalPages. */
  lemma EmptyPageIffPastEnd<T>(s: seq<T>, page: int, limit: int)
    requires limit > 0 && page >= 1
    ensures Window(s, (page - 1) * limit, limit) == [] <==> page > CeilDiv(|s|, limit)
  {
    var total := CeilDiv(|s|, limit);
    if page > total {
      assert (page - 1) * limit >= total * limit by {
        assert page - 1 >= total;
        MulMonotone(total, page - 1, limit);
      }
    } else {
      assert (page - 1) * limit <= (total - 1) * limit by {
        MulMonotone(page - 1, total - 1, limit);
      }
    }
  }

  lemma MulMonotone(a: int, b: int, c: int)
    requires a <= b && c > 0
    ensures a * c <= b * c
  {
    assert b * c - a * c == (b - a) * c;
  }

  /** A listing with no match has no page and a page count of 0. */
  lemma NoMatchesNoPages<T(!new)>(docs: seq<T>, keep: T -> bool, q: Query, none: string)
    requires q.limit != 0 && q.skip >= 0
    requires forall x :: x in docs ==> !keep(x)
    ensures ListPage(docs, keep, q, none) == Failure(NOT_FOUND, none)
    ensures CeilDiv(|Filter(docs, keep)|, q.limit) == 0
  {
    FilterRejectsAll(docs, keep);
  }
}
