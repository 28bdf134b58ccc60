/**
  What a search's answer means, item by item and page by page, in terms of the stored
  rows and plain comparisons (src/services/experience.service.ts).
 */
module SearchAnswers {
  import opened Wrappers
  import opened Tables
  import opened Pricing
  import opened Paging
  import opened Search

  // ---------- what is listed ----------

  /** The slot's own columns meet the query. */
  predicate SlotFits(snap: Snapshot, tenantId: string, q: SearchQuery, e: nat, s: nat) {
    && s < |snap.slots|
    && var slot := snap.slots[s];
    && slot.tenantId == tenantId && slot.experienceId == e
    && slot.capacity - slot.reserved >= q.partySize
    && slot.startsAt.ms >= q.startAt && slot.startsAt.ms < q.endAt
  }

  /** The search lists exactly the tenant's active experiences that are large enough, meet every filter that was
      given, and have a slot that fits. */
  lemma ListedExactly(snap: Snapshot, tenantId: string, q: SearchQuery, ordered: seq<nat>, e: nat)
    requires GroupedRows(snap, tenantId, q, ordered) && e < |snap.experiences|
    ensures e in ordered
       <==> var x := snap.experiences[e];
            && x.active && x.tenantId == tenantId && q.partySize <= x.capacity
            && (q.destinationHits == None || e in q.destinationHits.value)
            && (q.supplierId == None || q.supplierId == Some(x.supplierId))
            && (q.minPriceCents == None || q.minPriceCents.value <= x.basePriceCents)
            && (q.maxPriceCents == None || x.basePriceCents <= q.maxPriceCents.value)
            && exists s :: SlotFits(snap, tenantId, q, e, s)
  {
    forall s: nat ensures SlotFits(snap, tenantId, q, e, s) <==> EligibleFor(snap, tenantId, q, s, e) {
    }
    if e in ordered {
      var k :| 0 <= k < |ordered| && ordered[k] == e;
      assert Listed(snap, tenantId, q, ordered[k]);
      var s :| 0 <= s < |snap.slots| && EligibleFor(snap, tenantId, q, s, e);
      assert SlotFits(snap, tenantId, q, e, s);
    } else {
      assert !Listed(snap, tenantId, q, e);
    }
  }

  // ---------- what an item costs ----------

  /** The party's price on slot s, discounts and surcharges included, to the nearest cent. */
  predicate Costs(snap: Snapshot, q: SearchQuery, e: nat, s: nat, now: int, cents: int) {
    && e < |snap.experiences| && s < |snap.slots| && snap.experiences[e].supplierId < |snap.rules|
    && cents == ToCents(Total(snap.experiences[e].basePriceCents as real / 100.0,
                              snap.rules[snap.experiences[e].supplierId],
                              Quote(q.partySize, Some(snap.slots[s].startsAt), now)))
  }

  /** An item's from-price is what the party pays on some slot that fits, and no such slot costs less. */
  lemma FromPriceInCents(snap: Snapshot, tenantId: string, q: SearchQuery, now: int, ordered: seq<nat>,
                         r: SearchResult, k: nat)
    requires ForeignKeys(snap) && ValidQuery(q)
    ensures IsAnswer(snap, tenantId, q, now, ordered, r) && k < |r.items| ==>
              var item := r.items[k];
              && (exists s ::
                    SlotFits(snap, tenantId, q, item.id, s) && Costs(snap, q, item.id, s, now, item.fromPrice))
              && (forall s, cents ::
                    SlotFits(snap, tenantId, q, item.id, s) && Costs(snap, q, item.id, s, now, cents) ==>
                      item.fromPrice <= cents)
  {
    if IsAnswer(snap, tenantId, q, now, ordered, r) && k < |r.items| {
      ItemsShowFromPrice(snap, tenantId, q, now, ordered, r, k);
      FitsAndCosts(snap, tenantId, q, now, r.items[k].id, r.items[k].fromPrice);
    }
  }

  lemma FitsAndCosts(snap: Snapshot, tenantId: string, q: SearchQuery, now: int, e: nat, price: int)
    requires ForeignKeys(snap) && IsFromPrice(snap, tenantId, q, now, e, price)
    ensures exists s :: SlotFits(snap, tenantId, q, e, s) && Costs(snap, q, e, s, now, price)
    ensures forall s, cents :: SlotFits(snap, tenantId, q, e, s) && Costs(snap, q, e, s, now, cents) ==> price <= cents
  {
    var s0 :| 0 <= s0 < |snap.slots| && EligibleFor(snap, tenantId, q, s0, e) && SlotPrice(snap, q, s0, now) == price;
    assert SlotFits(snap, tenantId, q, e, s0) && Costs(snap, q, e, s0, now, price);
    forall s, cents | SlotFits(snap, tenantId, q, e, s) && Costs(snap, q, e, s, now, cents)
      ensures price <= cents
    {
      assert EligibleFor(snap, tenantId, q, s, e) && SlotPrice(snap, q, s, now) == cents;
    }
  }

  // ---------- the order of items ----------

  function Position(page: nat, pageSize: nat, k: nat): nat
    requires page >= 1
  {
    (page - 1) * pageSize + k
  }

  lemma PageAt<T>(s: seq<T>, page: nat, pageSize: nat, i: nat)
    requires page >= 1 && i < |Page(s, page, pageSize)|
    ensures i < pageSize && Position(page, pageSize, i) < |s|
    ensures Page(s, page, pageSize)[i] == s[Position(page, pageSize, i)]
  {
  }

  lemma EarlierPosition(p1: nat, i: nat, p2: nat, j: nat, pageSize: nat)
    requires 1 <= p1 <= p2 && i < pageSize && (p1 < p2 || i < j)
    ensures Position(p1, pageSize, i) < Position(p2, pageSize, j)
  {
    if p1 < p2 {
      TimesGrows(p1, p2 - 1, pageSize);
      assert (p1 - 1) * pageSize + pageSize == p1 * pageSize;
    }
  }

  /** No item before this one belongs behind it. */
  predicate ComesFirst(snap: Snapshot, q: SearchQuery, ordered: seq<nat>, x: Item, y: Item) {
    match q.sortBy
    case PRICE =>
      && (if q.descending then x.fromPrice >= y.fromPrice else x.fromPrice <= y.fromPrice)
      && (x.fromPrice == y.fromPrice ==>
            exists k, l :: 0 <= k < l < |ordered| && ordered[k] == x.id && ordered[l] == y.id)
    case TITLE =>
      && x.id < |snap.experiences| && y.id < |snap.experiences|
      && (if q.descending then snap.experiences[x.id].titleRank >= snap.experiences[y.id].titleRank
          else snap.experiences[x.id].titleRank <= snap.experiences[y.id].titleRank)
    case AVAILABLE_SPOTS =>
      if q.descending then x.availableSlots >= y.availableSlots else x.availableSlots <= y.availableSlots
    case STARTS_AT =>
      && x.earliestSlotAt.Some? && y.earliestSlotAt.Some?
      && (if q.descending then x.earliestSlotAt.value >= y.earliestSlotAt.value
          else x.earliestSlotAt.value <= y.earliestSlotAt.value)
  }

  /** All pages of a search cut one list; this is its place `at`. */
  predicate PlacedAt(snap: Snapshot, tenantId: string, q: SearchQuery, now: int, listing: seq<nat>, item: Item, at: nat)
    requires ForeignKeys(snap)
  {
    && at < |listing| && item.id == listing[at]
    && IsFromPrice(snap, tenantId, q, now, item.id, item.fromPrice)
    && item.availableSlots == AvailableSlots(snap, tenantId, q, item.id)
    && item.earliestSlotAt == EarliestSlotAt(snap, tenantId, q, item.id)
  }

  /** The list that the pages cut. */
  function Listing(q: SearchQuery, ordered: seq<nat>, price: map<nat, int>): seq<nat>
    requires q.sortBy.PRICE? ==> Priced(ordered, price)
  {
    if q.sortBy.PRICE? then StableSort(ordered, price, q.descending) else ordered
  }

  lemma ItemIds(snap: Snapshot, tenantId: string, q: SearchQuery, now: int, ordered: seq<nat>,
                price: map<nat, int>, r: SearchResult)
    requires ForeignKeys(snap) && ValidQuery(q) && AnswersAt(snap, tenantId, q, now, ordered, price, r)
    ensures q.sortBy.PRICE? ==> Priced(ordered, price) && PricesOf(snap, tenantId, q, now, ordered, price)
    ensures var ids := Page(Listing(q, ordered, price), q.page, q.pageSize);
            |r.items| == |ids| && forall k :: 0 <= k < |ids| ==> r.items[k].id == ids[k]
  {
  }

  lemma KeysInOrder(snap: Snapshot, tenantId: string, q: SearchQuery, now: int, ordered: seq<nat>,
                    x: Item, i: nat, y: Item, j: nat)
    requires ForeignKeys(snap) && !q.sortBy.PRICE? && GroupedRows(snap, tenantId, q, ordered) && i < j
    requires PlacedAt(snap, tenantId, q, now, ordered, x, i) && PlacedAt(snap, tenantId, q, now, ordered, y, j)
    ensures ComesFirst(snap, q, ordered, x, y)
  {
    assert Listed(snap, tenantId, q, ordered[i]) && Listed(snap, tenantId, q, ordered[j]);
    EarliestIsMinimum(snap, tenantId, q, x.id, |snap.slots|);
    EarliestIsMinimum(snap, tenantId, q, y.id, |snap.slots|);
  }

  lemma PricesInOrder(snap: Snapshot, tenantId: string, q: SearchQuery, now: int, ordered: seq<nat>,
                      price: map<nat, int>, x: Item, i: nat, y: Item, j: nat)
    requires ForeignKeys(snap) && q.sortBy.PRICE? && PricesOf(snap, tenantId, q, now, ordered, price)
    requires Priced(ordered, price) && i < j
    requires PlacedAt(snap, tenantId, q, now, StableSort(ordered, price, q.descending), x, i)
    requires PlacedAt(snap, tenantId, q, now, StableSort(ordered, price, q.descending), y, j)
    ensures ComesFirst(snap, q, ordered, x, y)
  {
    var all := StableSort(ordered, price, q.descending);
    StableSortIsStable(ordered, price, q.descending);
    assert GoesBefore(ordered, price, q.descending, all[i], all[j]);
    assert all[i] in multiset(all) && all[j] in multiset(all);
    SortedPrice(snap, tenantId, q, now, ordered, price, x.id, x.fromPrice);
    SortedPrice(snap, tenantId, q, now, ordered, price, y.id, y.fromPrice);
  }

  lemma SortedPrice(snap: Snapshot, tenantId: string, q: SearchQuery, now: int, ordered: seq<nat>,
                    price: map<nat, int>, e: nat, shown: int)
    requires ForeignKeys(snap) && PricesOf(snap, tenantId, q, now, ordered, price) && Priced(ordered, price)
    requires e in multiset(ordered) && IsFromPrice(snap, tenantId, q, now, e, shown)
    ensures e in price && price[e] == shown
  {
    var k := InMultiset(ordered, e);
    FromPriceUnique(snap, tenantId, q, now, e, price[e], shown);
  }

  lemma SameListing(snap: Snapshot, tenantId: string, q: SearchQuery, now: int, ordered: seq<nat>,
                    p1: map<nat, int>, p2: map<nat, int>)
    requires ForeignKeys(snap) && Distinct(ordered) && Priced(ordered, p1) && Priced(ordered, p2)
    requires PricesOf(snap, tenantId, q, now, ordered, p1) && PricesOf(snap, tenantId, q, now, ordered, p2)
    ensures StableSort(ordered, p1, q.descending) == StableSort(ordered, p2, q.descending)
  {
    SamePrices(snap, tenantId, q, now, ordered, p1, p2);
    SameSort(ordered, p1, p2, q.descending);
  }

  lemma PageDoesNotMatter(snap: Snapshot, tenantId: string, q: SearchQuery, now: int, listing: seq<nat>,
                          item: Item, page: nat, at: nat)
    requires ForeignKeys(snap)
    ensures PlacedAt(snap, tenantId, q.(page := page), now, listing, item, at)
       <==> PlacedAt(snap, tenantId, q, now, listing, item, at)
  {
    SameQuery(snap, tenantId, q, page, item.id, |snap.slots|);
    forall s | 0 <= s < |snap.slots|
      ensures SlotPrice(snap, q.(page := page), s, now) == SlotPrice(snap, q, s, now)
      ensures EligibleFor(snap, tenantId, q.(page := page), s, item.id) <==> EligibleFor(snap, tenantId, q, s, item.id)
    {
    }
  }

  lemma {:induction false} SameQuery(snap: Snapshot, tenantId: string, q: SearchQuery, page: nat, e: nat, n: nat)
    requires n <= |snap.slots|
    ensures CountEligible(snap, tenantId, q.(page := page), e, n) == CountEligible(snap, tenantId, q, e, n)
    ensures EarliestEligible(snap, tenantId, q.(page := page), e, n) == EarliestEligible(snap, tenantId, q, e, n)
  {
    if n > 0 { SameQuery(snap, tenantId, q, page, e, n - 1); }
  }

  lemma SamePricesOnPage(snap: Snapshot, tenantId: string, q: SearchQuery, now: int, rows: seq<nat>,
                         price: map<nat, int>, page: nat)
    requires ForeignKeys(snap) && PricesOf(snap, tenantId, q.(page := page), now, rows, price)
    ensures PricesOf(snap, tenantId, q, now, rows, price)
  {
    forall k | 0 <= k < |rows|
      ensures IsFromPrice(snap, tenantId, q, now, rows[k], price[rows[k]])
    {
      forall s | 0 <= s < |snap.slots|
        ensures SlotPrice(snap, q.(page := page), s, now) == SlotPrice(snap, q, s, now)
        ensures EligibleFor(snap, tenantId, q.(page := page), s, rows[k])
           <==> EligibleFor(snap, tenantId, q, s, rows[k])
      {
      }
    }
  }

  lemma ItemPlacedOnPage(snap: Snapshot, tenantId: string, q: SearchQuery, now: int, ordered: seq<nat>,
                         price: map<nat, int>, page: nat, r: SearchResult, k: nat)
    requires ForeignKeys(snap) && ValidQuery(q) && page >= 1
    requires AnswersAt(snap, tenantId, q.(page := page), now, ordered, price, r) && k < |r.items|
    ensures q.sortBy.PRICE? ==> Priced(ordered, price) && PricesOf(snap, tenantId, q, now, ordered, price)
    ensures k < q.pageSize
    ensures PlacedAt(snap, tenantId, q, now, Listing(q, ordered, price), r.items[k], Position(page, q.pageSize, k))
  {
    ItemIds(snap, tenantId, q.(page := page), now, ordered, price, r);
    ItemIsPriced(snap, tenantId, q.(page := page), now, ordered, price, r, k);
    PageAt(Listing(q, ordered, price), page, q.pageSize, k);
    PageDoesNotMatter(snap, tenantId, q, now, Listing(q, ordered, price), r.items[k], page,
                      Position(page, q.pageSize, k));
    if q.sortBy.PRICE? { SamePricesOnPage(snap, tenantId, q, now, ordered, price, page); }
  }

  lemma PlacedInOrder(snap: Snapshot, tenantId: string, q: SearchQuery, now: int, ordered: seq<nat>,
                      price1: map<nat, int>, price2: map<nat, int>, x: Item, i: nat, y: Item, j: nat)
    requires ForeignKeys(snap) && GroupedRows(snap, tenantId, q, ordered) && i < j
    requires q.sortBy.PRICE? ==> Priced(ordered, price1) && PricesOf(snap, tenantId, q, now, ordered, price1)
    requires q.sortBy.PRICE? ==> Priced(ordered, price2) && PricesOf(snap, tenantId, q, now, ordered, price2)
    requires PlacedAt(snap, tenantId, q, now, Listing(q, ordered, price1), x, i)
    requires PlacedAt(snap, tenantId, q, now, Listing(q, ordered, price2), y, j)
    ensures ComesFirst(snap, q, ordered, x, y)
  {
    if q.sortBy.PRICE? {
      SameListing(snap, tenantId, q, now, ordered, price1, price2);
      PricesInOrder(snap, tenantId, q, now, ordered, price1, x, i, y, j);
    } else {
      KeysInOrder(snap, tenantId, q, now, ordered, x, i, y, j);
    }
  }

  lemma ItemsInOrderAt(snap: Snapshot, tenantId: string, q: SearchQuery, now: int, ordered: seq<nat>,
                       price1: map<nat, int>, p1: nat, r1: SearchResult, i: nat,
                       price2: map<nat, int>, p2: nat, r2: SearchResult, j: nat)
    requires ForeignKeys(snap) && ValidQuery(q) && 1 <= p1 <= p2 && (p1 < p2 || i < j)
    requires GroupedRows(snap, tenantId, q, ordered)
    requires AnswersAt(snap, tenantId, q.(page := p1), now, ordered, price1, r1) && i < |r1.items|
    requires AnswersAt(snap, tenantId, q.(page := p2), now, ordered, price2, r2) && j < |r2.items|
    ensures ComesFirst(snap, q, ordered, r1.items[i], r2.items[j])
  {
    ItemPlacedOnPage(snap, tenantId, q, now, ordered, price1, p1, r1, i);
    ItemPlacedOnPage(snap, tenantId, q, now, ordered, price2, p2, r2, j);
    EarlierPosition(p1, i, p2, j, q.pageSize);
    PlacedInOrder(snap, tenantId, q, now, ordered, price1, price2,
                  r1.items[i], Position(p1, q.pageSize, i), r2.items[j], Position(p2, q.pageSize, j));
  }

  /** Items come in the direction asked for, on one page and from page to page: by from-price with ties as fetched,
      by title, by slot count, or by earliest start. */
  lemma ItemsInOrder(snap: Snapshot, tenantId: string, q: SearchQuery, now: int, ordered: seq<nat>,
                     p1: nat, r1: SearchResult, i: nat, p2: nat, r2: SearchResult, j: nat)
    requires ForeignKeys(snap) && ValidQuery(q) && 1 <= p1 <= p2 && (p1 < p2 || i < j)
    requires i < |r1.items| && j < |r2.items|
    ensures && GroupedRows(snap, tenantId, q, ordered)
            && IsAnswer(snap, tenantId, q.(page := p1), now, ordered, r1)
            && IsAnswer(snap, tenantId, q.(page := p2), now, ordered, r2)
            ==> ComesFirst(snap, q, ordered, r1.items[i], r2.items[j])
  {
    if && GroupedRows(snap, tenantId, q, ordered)
       && IsAnswer(snap, tenantId, q.(page := p1), now, ordered, r1)
       && IsAnswer(snap, tenantId, q.(page := p2), now, ordered, r2)
    {
      var price1 :| AnswersAt(snap, tenantId, q.(page := p1), now, ordered, price1, r1);
      var price2 :| AnswersAt(snap, tenantId, q.(page := p2), now, ordered, price2, r2);
      ItemsInOrderAt(snap, tenantId, q, now, ordered, price1, p1, r1, i, price2, p2, r2, j);
    }
  }

  // ---------- pagination ----------

  lemma ListingLength(q: SearchQuery, ordered: seq<nat>, price: map<nat, int>)
    requires q.sortBy.PRICE? ==> Priced(ordered, price)
    ensures |Listing(q, ordered, price)| == |ordered|
  {
    var listing := Listing(q, ordered, price);
    assert |listing| == |multiset(listing)| == |multiset(ordered)| == |ordered|;
  }

  lemma PageLength<T>(s: seq<T>, page: nat, pageSize: nat)
    requires page >= 1
    ensures FillsPage(|Page(s, page, pageSize)|, |s|, page, pageSize)
  {
  }

  lemma AnswerPaginationAt(snap: Snapshot, tenantId: string, q: SearchQuery, now: int, ordered: seq<nat>,
                           price: map<nat, int>, r: SearchResult)
    requires ForeignKeys(snap) && ValidQuery(q) && AnswersAt(snap, tenantId, q, now, ordered, price, r)
    ensures r.page == q.page && r.pageSize == q.pageSize && r.totalItems == |ordered|
    ensures r.totalPages == TotalPages(|ordered|, q.pageSize)
    ensures |r.items| == |Page(Listing(q, ordered, price), q.page, q.pageSize)|
    ensures forall k :: 0 <= k < |r.items| ==> r.items[k].partySize == q.partySize
  {
    ItemIds(snap, tenantId, q, now, ordered, price, r);
  }

  /** The page is full, or holds what is left. */
  predicate FillsPage(items: nat, total: nat, page: nat, pageSize: nat)
    requires page >= 1
  {
    var left := total - (page - 1) * pageSize;
    items == if left <= 0 then 0 else if left < pageSize then left else pageSize
  }

  /** The answer names its page, counts everything listed, gives the least number of pages that holds it all, and
      fills the page. */
  lemma AnswerPagination(snap: Snapshot, tenantId: string, q: SearchQuery, now: int, ordered: seq<nat>, r: SearchResult)
    requires ForeignKeys(snap) && ValidQuery(q)
    ensures IsAnswer(snap, tenantId, q, now, ordered, r) ==>
              && r.page == q.page && r.pageSize == q.pageSize && r.totalItems == |ordered|
              && r.totalItems <= r.totalPages * q.pageSize
              && (r.totalPages > 0 ==> (r.totalPages - 1) * q.pageSize < r.totalItems)
              && FillsPage(|r.items|, r.totalItems, q.page, q.pageSize)
              && (forall k :: 0 <= k < |r.items| ==> r.items[k].partySize == q.partySize)
  {
    if IsAnswer(snap, tenantId, q, now, ordered, r) {
      var price :| AnswersAt(snap, tenantId, q, now, ordered, price, r);
      AnswerPaginationAt(snap, tenantId, q, now, ordered, price, r);
      TotalPagesBounds(|ordered|, q.pageSize);
      ListingLength(q, ordered, price);
      PageLength(Listing(q, ordered, price), q.page, q.pageSize);
    }
  }
}
