/**
  Searches the database sorts (src/services/experience.service.ts): what their pages
  list, and when two requests for pages see the same order.
 */
module SearchOrder {
  import opened Wrappers
  import opened Tables
  import opened Paging
  import opened Search

  /** Pages 1 to totalPages of a search sorted by the database list every experience exactly once, in key order;
      later pages are empty. */
  lemma KeySortedPagesCover(
    snap: Snapshot, tenantId: string, q: SearchQuery, ordered: seq<nat>, price: map<nat, int>, p: nat)
    requires ValidQuery(q) && !q.sortBy.PRICE? && p >= 1 && GroupedRows(snap, tenantId, q, ordered)
    requires Priced(GroupedAnswer(q.(page := p), ordered), price)
    ensures InKeyOrder(snap, tenantId, q, ordered)
    ensures PageIds(q.(page := p), ordered, price) == Page(ordered, p, q.pageSize)
    ensures Pages(ordered, q.pageSize, TotalPages(|ordered|, q.pageSize)) == ordered
    ensures forall e :: 0 <= e < |snap.experiences| ==>
              multiset(ordered)[e] == if Listed(snap, tenantId, q, e) then 1 else 0
    ensures p > TotalPages(|ordered|, q.pageSize) ==> PageIds(q.(page := p), ordered, price) == []
  {
    PagesCover(ordered, q.pageSize);
    forall e | 0 <= e < |snap.experiences|
      ensures multiset(ordered)[e] == if Listed(snap, tenantId, q, e) then 1 else 0
    {
      CountDistinct(ordered, e);
    }
  }

  // ---------- when the order is determined ----------

  predicate DistinctKeys(snap: Snapshot, tenantId: string, q: SearchQuery, rows: seq<nat>) {
    forall i, j :: 0 <= i < j < |rows| ==>
      SortKey(snap, tenantId, q, rows[i]) != SortKey(snap, tenantId, q, rows[j])
  }

  lemma SameElements(r: seq<nat>, s: seq<nat>)
    requires Distinct(r) && Distinct(s) && forall e :: e in r <==> e in s
    ensures multiset(r) == multiset(s)
  {
    forall e: nat ensures multiset(r)[e] == multiset(s)[e] {
      CountDistinct(r, e);
      CountDistinct(s, e);
    }
  }

  function Keys(snap: Snapshot, tenantId: string, q: SearchQuery, rows: seq<nat>): map<nat, int> {
    map e | e in rows :: SortKey(snap, tenantId, q, e)
  }

  lemma DistinctKeysOrder(snap: Snapshot, tenantId: string, q: SearchQuery, rows: seq<nat>, other: seq<nat>)
    requires InKeyOrder(snap, tenantId, q, other) && Distinct(other) && DistinctKeys(snap, tenantId, q, rows)
    requires forall e :: e in other <==> e in rows
    ensures Priced(other, Keys(snap, tenantId, q, rows))
    ensures Ordered(rows, Keys(snap, tenantId, q, rows), q.descending, other)
  {
    forall i, j | 0 <= i < j < |other|
      ensures GoesBefore(rows, Keys(snap, tenantId, q, rows), q.descending, other[i], other[j])
    {
      assert other[i] in other && other[j] in other;
      var k :| 0 <= k < |rows| && rows[k] == other[i];
      var l :| 0 <= l < |rows| && rows[l] == other[j];
      assert k != l;
    }
  }

  lemma DistinctKeysDetermine(snap: Snapshot, tenantId: string, q: SearchQuery, rows: seq<nat>, other: seq<nat>)
    requires GroupedRows(snap, tenantId, q, rows) && GroupedRows(snap, tenantId, q, other)
    requires DistinctKeys(snap, tenantId, q, rows)
    ensures other == rows
  {
    forall e ensures e in other <==> e in rows {
      if e in other { var k :| 0 <= k < |other| && other[k] == e; assert Listed(snap, tenantId, q, other[k]); }
      if e in rows { var k :| 0 <= k < |rows| && rows[k] == e; assert Listed(snap, tenantId, q, rows[k]); }
    }
    SameElements(rows, other);
    DistinctKeysOrder(snap, tenantId, q, rows, rows);
    DistinctKeysOrder(snap, tenantId, q, rows, other);
    StableSortUnique(rows, Keys(snap, tenantId, q, rows), q.descending, other, rows);
  }

  function SwapNext(rows: seq<nat>, i: nat): seq<nat>
    requires i + 1 < |rows|
  {
    rows[i := rows[i + 1]][i + 1 := rows[i]]
  }

  function Partner(i: nat, k: nat): nat {
    if k == i then i + 1 else if k == i + 1 then i else k
  }

  lemma SwappedAt(rows: seq<nat>, i: nat, k: nat)
    requires i + 1 < |rows| && k < |rows|
    ensures Partner(i, k) < |rows| && SwapNext(rows, i)[k] == rows[Partner(i, k)]
  {
  }

  lemma SwapIsDistinct(rows: seq<nat>, i: nat)
    requires Distinct(rows) && i + 1 < |rows|
    ensures Distinct(SwapNext(rows, i)) && SwapNext(rows, i) != rows
  {
    forall j, k | 0 <= j < k < |rows| ensures SwapNext(rows, i)[j] != SwapNext(rows, i)[k] {
      SwappedAt(rows, i, j);
      SwappedAt(rows, i, k);
    }
    SwappedAt(rows, i, i);
  }

  lemma SwapKeepsRows(rows: seq<nat>, i: nat)
    requires i + 1 < |rows|
    ensures forall e :: e in SwapNext(rows, i) <==> e in rows
  {
    forall k | 0 <= k < |rows| ensures rows[k] in SwapNext(rows, i) && SwapNext(rows, i)[k] in rows {
      SwappedAt(rows, i, k);
      SwappedAt(rows, i, Partner(i, k));
    }
  }

  lemma SwapKeepsOrder(snap: Snapshot, tenantId: string, q: SearchQuery, rows: seq<nat>, i: nat)
    requires InKeyOrder(snap, tenantId, q, rows) && i + 1 < |rows|
    requires SortKey(snap, tenantId, q, rows[i]) == SortKey(snap, tenantId, q, rows[i + 1])
    ensures InKeyOrder(snap, tenantId, q, SwapNext(rows, i))
  {
    var other := SwapNext(rows, i);
    forall k | 0 <= k < |rows|
      ensures SortKey(snap, tenantId, q, other[k]) == SortKey(snap, tenantId, q, rows[k])
    {
    }
  }

  /** Equal keys next to each other may come the other way round. */
  lemma TiesSwap(snap: Snapshot, tenantId: string, q: SearchQuery, rows: seq<nat>, i: nat)
    requires GroupedRows(snap, tenantId, q, rows) && i + 1 < |rows|
    requires SortKey(snap, tenantId, q, rows[i]) == SortKey(snap, tenantId, q, rows[i + 1])
    ensures GroupedRows(snap, tenantId, q, SwapNext(rows, i)) && SwapNext(rows, i) != rows
  {
    SwapIsDistinct(rows, i);
    SwapKeepsRows(rows, i);
    SwapKeepsOrder(snap, tenantId, q, rows, i);
    var other := SwapNext(rows, i);
    forall k | 0 <= k < |other| ensures Listed(snap, tenantId, q, other[k]) {
      assert other[k] in rows;
    }
  }

  /** In key order, some two equal keys are next to each other if any are. */
  lemma AdjacentTie(snap: Snapshot, tenantId: string, q: SearchQuery, rows: seq<nat>, i: nat, j: nat)
    requires InKeyOrder(snap, tenantId, q, rows) && i < j < |rows|
    requires SortKey(snap, tenantId, q, rows[i]) == SortKey(snap, tenantId, q, rows[j])
    ensures SortKey(snap, tenantId, q, rows[i]) == SortKey(snap, tenantId, q, rows[i + 1])
  {
  }

  /** The query has no tie-breaker: its order, and with it what separate requests for pages put together, is
      determined exactly if no two listed experiences share the sort key. */
  lemma OrderDeterminedIff(snap: Snapshot, tenantId: string, q: SearchQuery, rows: seq<nat>)
    requires GroupedRows(snap, tenantId, q, rows)
    ensures (forall other :: GroupedRows(snap, tenantId, q, other) ==> other == rows)
       <==> DistinctKeys(snap, tenantId, q, rows)
  {
    if DistinctKeys(snap, tenantId, q, rows) {
      forall other | GroupedRows(snap, tenantId, q, other) ensures other == rows {
        DistinctKeysDetermine(snap, tenantId, q, rows, other);
      }
    } else {
      var i, j :| 0 <= i < j < |rows| && SortKey(snap, tenantId, q, rows[i]) == SortKey(snap, tenantId, q, rows[j]);
      AdjacentTie(snap, tenantId, q, rows, i, j);
      TiesSwap(snap, tenantId, q, rows, i);
    }
  }
}
