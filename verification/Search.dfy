/**
  Experience search (src/services/experience.service.ts) on one database snapshot
  and with one clock reading.  Queries the database answers in an order of its own
  choosing are inputs, constrained to be an answer.
 */
module Search {
  import opened Wrappers
  import opened Tables
  import opened Pricing
  import opened Paging

  /** `titleRank` is the title's place in the database's collation. */
  datatype Experience = Experience(
    tenantId: string, active: bool, titleRank: int, basePriceCents: int, capacity: int, supplierId: nat)

  /** `rules[s]` are supplier s's active pricing rules. */
  datatype Snapshot = Snapshot(experiences: seq<Experience>, slots: seq<Slot>, rules: seq<seq<Rule>>)

  datatype SortBy = STARTS_AT | PRICE | TITLE | AVAILABLE_SPOTS

  /** `destinationHits`: the experiences whose destination contains the text asked for, if any was. */
  datatype SearchQuery = SearchQuery(
    partySize: int, startAt: int, endAt: int, destinationHits: Option<set<nat>>, supplierId: Option<nat>,
    minPriceCents: Option<int>, maxPriceCents: Option<int>, sortBy: SortBy, descending: bool, page: nat, pageSize: nat)

  predicate ForeignKeys(snap: Snapshot) {
    && (forall s :: 0 <= s < |snap.slots| ==> snap.slots[s].experienceId < |snap.experiences|)
    && (forall e :: 0 <= e < |snap.experiences| ==> snap.experiences[e].supplierId < |snap.rules|)
  }

  predicate ValidQuery(q: SearchQuery) {
    q.partySize >= 1 && q.page >= 1 && q.pageSize >= 1
  }

  // ---------- the filters ----------

  predicate Matching(snap: Snapshot, tenantId: string, q: SearchQuery, e: nat) {
    && e < |snap.experiences|
    && var x := snap.experiences[e];
    && x.tenantId == tenantId && x.active && x.capacity >= q.partySize
    && (q.destinationHits.Some? ==> e in q.destinationHits.value)
    && (q.supplierId.Some? ==> x.supplierId == q.supplierId.value)
    && (q.minPriceCents.Some? ==> x.basePriceCents >= q.minPriceCents.value)
    && (q.maxPriceCents.Some? ==> x.basePriceCents <= q.maxPriceCents.value)
  }

  /** The slot filter both queries share. */
  predicate Eligible(snap: Snapshot, tenantId: string, q: SearchQuery, s: nat) {
    && s < |snap.slots|
    && snap.slots[s].tenantId == tenantId
    && q.startAt <= snap.slots[s].startsAt.ms < q.endAt
    && Spots(snap.slots[s]) >= q.partySize
  }

  predicate EligibleFor(snap: Snapshot, tenantId: string, q: SearchQuery, s: nat, e: nat) {
    Eligible(snap, tenantId, q, s) && snap.slots[s].experienceId == e
  }

  predicate HasEligibleSlot(snap: Snapshot, tenantId: string, q: SearchQuery, e: nat) {
    exists s :: 0 <= s < |snap.slots| && EligibleFor(snap, tenantId, q, s, e)
  }

  function MatchingIds(snap: Snapshot, tenantId: string, q: SearchQuery): set<nat> {
    set e | 0 <= e < |snap.experiences| && Matching(snap, tenantId, q, e)
  }

  // ---------- what the grouped query computes ----------

  /** COUNT over the first n slots. */
  function CountEligible(snap: Snapshot, tenantId: string, q: SearchQuery, e: nat, n: nat): nat
    requires n <= |snap.slots|
  {
    if n == 0 then 0
    else CountEligible(snap, tenantId, q, e, n - 1) + (if EligibleFor(snap, tenantId, q, n - 1, e) then 1 else 0)
  }

  /** MIN of the starts over the first n slots. */
  function EarliestEligible(snap: Snapshot, tenantId: string, q: SearchQuery, e: nat, n: nat): Option<int>
    requires n <= |snap.slots|
  {
    if n == 0 then None
    else
      var earlier := EarliestEligible(snap, tenantId, q, e, n - 1);
      var start := snap.slots[n - 1].startsAt.ms;
      if EligibleFor(snap, tenantId, q, n - 1, e) && (earlier.None? || start < earlier.value) then Some(start)
      else earlier
  }

  function AvailableSlots(snap: Snapshot, tenantId: string, q: SearchQuery, e: nat): nat {
    CountEligible(snap, tenantId, q, e, |snap.slots|)
  }

  function EarliestSlotAt(snap: Snapshot, tenantId: string, q: SearchQuery, e: nat): Option<int> {
    EarliestEligible(snap, tenantId, q, e, |snap.slots|)
  }

  function EligibleBelow(snap: Snapshot, tenantId: string, q: SearchQuery, e: nat, n: nat): set<nat>
    requires n <= |snap.slots|
  {
    set s | 0 <= s < n && EligibleFor(snap, tenantId, q, s, e)
  }

  lemma {:induction false} CountIsCardinality(snap: Snapshot, tenantId: string, q: SearchQuery, e: nat, n: nat)
    requires n <= |snap.slots|
    ensures CountEligible(snap, tenantId, q, e, n) == |EligibleBelow(snap, tenantId, q, e, n)|
  {
    if n > 0 {
      CountIsCardinality(snap, tenantId, q, e, n - 1);
      var before, all := EligibleBelow(snap, tenantId, q, e, n - 1), EligibleBelow(snap, tenantId, q, e, n);
      assert all == if EligibleFor(snap, tenantId, q, n - 1, e) then before + {n - 1} else before;
    }
  }

  predicate IsEarliest(snap: Snapshot, tenantId: string, q: SearchQuery, e: nat, n: nat, at: int)
    requires n <= |snap.slots|
  {
    && (exists s :: 0 <= s < n && EligibleFor(snap, tenantId, q, s, e) && snap.slots[s].startsAt.ms == at)
    && (forall s :: 0 <= s < n && EligibleFor(snap, tenantId, q, s, e) ==> at <= snap.slots[s].startsAt.ms)
  }

  lemma {:induction false} EarliestIsMinimum(snap: Snapshot, tenantId: string, q: SearchQuery, e: nat, n: nat)
    requires n <= |snap.slots|
    ensures match EarliestEligible(snap, tenantId, q, e, n)
            case Some(at) => IsEarliest(snap, tenantId, q, e, n, at)
            case None => forall s :: 0 <= s < n ==> !EligibleFor(snap, tenantId, q, s, e)
  {
    if n > 0 {
      EarliestIsMinimum(snap, tenantId, q, e, n - 1);
      var at := EarliestEligible(snap, tenantId, q, e, n);
      if at.Some? && at != EarliestEligible(snap, tenantId, q, e, n - 1) {
        assert EligibleFor(snap, tenantId, q, n - 1, e) && snap.slots[n - 1].startsAt.ms == at.value;
      }
    }
  }

  /** What the database sorts by; for a price sort, the earliest start. */
  function SortKey(snap: Snapshot, tenantId: string, q: SearchQuery, e: nat): int {
    match q.sortBy
    case TITLE => if e < |snap.experiences| then snap.experiences[e].titleRank else 0
    case AVAILABLE_SPOTS => AvailableSlots(snap, tenantId, q, e)
    case _ =>
      match EarliestSlotAt(snap, tenantId, q, e)
      case Some(at) => at
      case None => 0
  }

  predicate InKeyOrder(snap: Snapshot, tenantId: string, q: SearchQuery, rows: seq<nat>) {
    forall i, j :: 0 <= i < j < |rows| ==>
      !Strictly(SortKey(snap, tenantId, q, rows[j]), SortKey(snap, tenantId, q, rows[i]), q.descending)
  }

  predicate Listed(snap: Snapshot, tenantId: string, q: SearchQuery, e: nat) {
    Matching(snap, tenantId, q, e) && HasEligibleSlot(snap, tenantId, q, e)
  }

  /** The grouped query: each matching experience with an eligible slot once, in the order asked for; ties are in
      any order. */
  predicate GroupedRows(snap: Snapshot, tenantId: string, q: SearchQuery, rows: seq<nat>) {
    && Distinct(rows)
    && (forall k :: 0 <= k < |rows| ==> Listed(snap, tenantId, q, rows[k]))
    && (forall e :: 0 <= e < |snap.experiences| && Listed(snap, tenantId, q, e) ==> e in rows)
    && InKeyOrder(snap, tenantId, q, rows)
  }

  /** The slot query: the eligible slots of the given experiences, in some order. */
  predicate SlotRows(snap: Snapshot, tenantId: string, q: SearchQuery, ids: set<nat>, slotRows: seq<nat>) {
    && (forall k :: 0 <= k < |slotRows| ==>
          Eligible(snap, tenantId, q, slotRows[k]) && snap.slots[slotRows[k]].experienceId in ids)
    && (forall s :: 0 <= s < |snap.slots| && Eligible(snap, tenantId, q, s) && snap.slots[s].experienceId in ids
          ==> s in slotRows)
  }

  // ---------- prices ----------

  /** The shown total for the party on one slot. */
  function SlotPrice(snap: Snapshot, q: SearchQuery, s: nat, now: int): int
    requires ForeignKeys(snap) && s < |snap.slots|
  {
    var x := snap.experiences[snap.slots[s].experienceId];
    PreviewOf(x.basePriceCents as real / 100.0, snap.rules[x.supplierId],
              Quote(q.partySize, Some(snap.slots[s].startsAt), now)).totalPrice
  }

  predicate IsFromPrice(snap: Snapshot, tenantId: string, q: SearchQuery, now: int, e: nat, price: int)
    requires ForeignKeys(snap)
  {
    && (exists s ::
          0 <= s < |snap.slots| && EligibleFor(snap, tenantId, q, s, e) && SlotPrice(snap, q, s, now) == price)
    && (forall s ::
          0 <= s < |snap.slots| && EligibleFor(snap, tenantId, q, s, e) ==> price <= SlotPrice(snap, q, s, now))
  }

  method PriceOfSlot(snap: Snapshot, q: SearchQuery, s: nat, now: int) returns (price: int)
    requires ForeignKeys(snap) && s < |snap.slots|
    ensures price == SlotPrice(snap, q, s, now)
  {
    var x := snap.experiences[snap.slots[s].experienceId];
    var preview := CalculatePricingPreview(
      x.basePriceCents as real / 100.0, q.partySize, snap.rules[x.supplierId], Some(snap.slots[s].startsAt), now);
    price := preview.totalPrice;
  }

  // ---------- the running minimum ----------

  /** A slot seen by the loop: its experience and its price. */
  datatype Offer = Offer(experienceId: nat, price: int)

  function Offers(snap: Snapshot, q: SearchQuery, slotRows: seq<nat>, now: int): seq<Offer>
    requires ForeignKeys(snap) && forall k :: 0 <= k < |slotRows| ==> slotRows[k] < |snap.slots|
  {
    seq(|slotRows|, k requires 0 <= k < |slotRows| =>
      Offer(snap.slots[slotRows[k]].experienceId, SlotPrice(snap, q, slotRows[k], now)))
  }

  predicate Offered(offers: seq<Offer>, e: nat) {
    exists k :: 0 <= k < |offers| && offers[k].experienceId == e
  }

  predicate IsLeast(offers: seq<Offer>, e: nat, price: int) {
    Offer(e, price) in offers && forall k :: 0 <= k < |offers| && offers[k].experienceId == e ==>
        price <= offers[k].price
  }

  /** Exactly the known experiences on offer, each at its least price. */
  ghost predicate IsMinimumMap(offers: seq<Offer>, known: set<nat>, m: map<nat, int>) {
    && (forall e :: e in m <==> e in known && Offered(offers, e))
    && (forall e :: e in m ==> IsLeast(offers, e, m[e]))
  }

  function Lower(m: map<nat, int>, e: nat, price: int): map<nat, int> {
    if e !in m || price < m[e] then m[e := price] else m
  }

  lemma OfferedAppend(offers: seq<Offer>, o: Offer, e: nat)
    ensures Offered(offers + [o], e) <==> Offered(offers, e) || o.experienceId == e
  {
    if o.experienceId == e { assert (offers + [o])[|offers|].experienceId == e; }
    if Offered(offers, e) {
      var k :| 0 <= k < |offers| && offers[k].experienceId == e;
      assert (offers + [o])[k].experienceId == e;
    }
  }

  lemma MinimumStep(offers: seq<Offer>, known: set<nat>, m: map<nat, int>, o: Offer)
    requires IsMinimumMap(offers, known, m)
    ensures IsMinimumMap(offers + [o], known, if o.experienceId in known then Lower(m, o.experienceId, o.price) else m)
  {
    var m' := if o.experienceId in known then Lower(m, o.experienceId, o.price) else m;
    forall e | true
      ensures e in m' <==> e in known && Offered(offers + [o], e)
    {
      OfferedAppend(offers, o, e);
    }
    forall e | e in m'
      ensures IsLeast(offers + [o], e, m'[e])
    {
      if e in m { assert IsLeast(offers, e, m[e]); }
    }
  }

  method FromPrices(snap: Snapshot, q: SearchQuery, slotRows: seq<nat>, known: set<nat>, now: int)
    returns (fromPrice: map<nat, int>)
    requires ForeignKeys(snap) && forall k :: 0 <= k < |slotRows| ==> slotRows[k] < |snap.slots|
    ensures IsMinimumMap(Offers(snap, q, slotRows, now), known, fromPrice)
  {
    fromPrice := map[];
    ghost var offers := Offers(snap, q, slotRows, now);
    for i := 0 to |slotRows|
      invariant IsMinimumMap(offers[..i], known, fromPrice)
    {
      var s := slotRows[i];
      var e := snap.slots[s].experienceId;
      var price := PriceOfSlot(snap, q, s, now);
      assert offers[i] == Offer(e, price);
      MinimumStep(offers[..i], known, fromPrice, offers[i]);
      assert offers[..i + 1] == offers[..i] + [offers[i]];
      if e in known {
        if e !in fromPrice || price < fromPrice[e] {
          fromPrice := fromPrice[e := price];
        }
      }
    }
    assert offers[..|slotRows|] == offers;
  }

  /** Every eligible slot of a listed experience is an offer. */
  lemma EligibleIsOffered(snap: Snapshot, tenantId: string, q: SearchQuery, now: int, ids: set<nat>,
                          slotRows: seq<nat>, e: nat, s: nat)
    requires ForeignKeys(snap) && SlotRows(snap, tenantId, q, ids, slotRows)
    requires e in ids && s < |snap.slots| && EligibleFor(snap, tenantId, q, s, e)
    ensures Offer(e, SlotPrice(snap, q, s, now)) in Offers(snap, q, slotRows, now)
  {
    var k :| 0 <= k < |slotRows| && slotRows[k] == s;
    assert Offers(snap, q, slotRows, now)[k] == Offer(e, SlotPrice(snap, q, s, now));
  }

  /** Every offer is an eligible slot at its price. */
  lemma OfferedIsEligible(snap: Snapshot, tenantId: string, q: SearchQuery, now: int, ids: set<nat>,
                          slotRows: seq<nat>, e: nat, price: int) returns (s: nat)
    requires ForeignKeys(snap) && SlotRows(snap, tenantId, q, ids, slotRows)
    requires Offer(e, price) in Offers(snap, q, slotRows, now)
    ensures s < |snap.slots| && EligibleFor(snap, tenantId, q, s, e) && SlotPrice(snap, q, s, now) == price
  {
    var k :| 0 <= k < |slotRows| && Offers(snap, q, slotRows, now)[k] == Offer(e, price);
    s := slotRows[k];
  }

  lemma LeastAtMost(offers: seq<Offer>, known: set<nat>, m: map<nat, int>, e: nat, price: int)
    requires IsMinimumMap(offers, known, m) && e in known && Offer(e, price) in offers
    ensures e in m && m[e] <= price && Offer(e, m[e]) in offers
  {
    var k :| 0 <= k < |offers| && offers[k] == Offer(e, price);
    assert Offered(offers, e);
    assert IsLeast(offers, e, m[e]);
  }

  /** On one snapshot the two queries agree: every listed experience has a from-price, so the base-price
      fallback is never used, and it is the true minimum over its eligible slots. */
  lemma FromPriceIsTrueMinimum(snap: Snapshot, tenantId: string, q: SearchQuery, now: int, ids: set<nat>,
                               slotRows: seq<nat>, m: map<nat, int>, e: nat)
    requires ForeignKeys(snap) && SlotRows(snap, tenantId, q, ids, slotRows)
    requires IsMinimumMap(Offers(snap, q, slotRows, now), ids, m)
    requires e in ids && HasEligibleSlot(snap, tenantId, q, e)
    ensures e in m && IsFromPrice(snap, tenantId, q, now, e, m[e])
  {
    forall s | 0 <= s < |snap.slots| && EligibleFor(snap, tenantId, q, s, e)
      ensures e in m && m[e] <= SlotPrice(snap, q, s, now)
      ensures Offer(e, m[e]) in Offers(snap, q, slotRows, now)
    {
      EligibleIsOffered(snap, tenantId, q, now, ids, slotRows, e, s);
      LeastAtMost(Offers(snap, q, slotRows, now), ids, m, e, SlotPrice(snap, q, s, now));
    }
    var s0 :| 0 <= s0 < |snap.slots| && EligibleFor(snap, tenantId, q, s0, e);
    var attained := OfferedIsEligible(snap, tenantId, q, now, ids, slotRows, e, m[e]);
  }

  lemma FromPriceUnique(snap: Snapshot, tenantId: string, q: SearchQuery, now: int, e: nat, p1: int, p2: int)
    requires ForeignKeys(snap)
    requires IsFromPrice(snap, tenantId, q, now, e, p1) && IsFromPrice(snap, tenantId, q, now, e, p2)
    ensures p1 == p2
  {
  }

  // ---------- the search ----------

  datatype Item = Item(id: nat, partySize: int, fromPrice: int, availableSlots: nat, earliestSlotAt: Option<int>)

  datatype SearchResult = SearchResult(items: seq<Item>, page: nat, pageSize: nat, totalItems: nat, totalPages: nat)

  function ItemsOf(snap: Snapshot, tenantId: string, q: SearchQuery, rows: seq<nat>, price: map<nat, int>): seq<Item>
    requires Priced(rows, price)
  {
    seq(|rows|, k requires 0 <= k < |rows| =>
      Item(rows[k], q.partySize, price[rows[k]],
           AvailableSlots(snap, tenantId, q, rows[k]), EarliestSlotAt(snap, tenantId, q, rows[k])))
  }

  /** The right price for each listed experience. */
  predicate PricesOf(snap: Snapshot, tenantId: string, q: SearchQuery, now: int, rows: seq<nat>, price: map<nat, int>)
    requires ForeignKeys(snap)
  {
    forall k :: 0 <= k < |rows| ==> rows[k] in price && IsFromPrice(snap, tenantId, q, now, rows[k], price[rows[k]])
  }

  /** `ordered` is the grouped query's answer in the database's order; sorted by anything but price, the database
      also cuts the page. */
  function GroupedAnswer(q: SearchQuery, ordered: seq<nat>): seq<nat>
    requires q.page >= 1
  {
    if q.sortBy.PRICE? then ordered else Page(ordered, q.page, q.pageSize)
  }

  function PricedIds(snap: Snapshot, tenantId: string, q: SearchQuery, ordered: seq<nat>): set<nat>
    requires q.page >= 1
  {
    if q.sortBy.PRICE? then MatchingIds(snap, tenantId, q) else set e | e in GroupedAnswer(q, ordered)
  }

  /** The ids on the query's page, given the prices. */
  function PageIds(q: SearchQuery, ordered: seq<nat>, price: map<nat, int>): seq<nat>
    requires q.page >= 1 && Priced(GroupedAnswer(q, ordered), price)
  {
    if q.sortBy.PRICE? then Page(StableSort(ordered, price, q.descending), q.page, q.pageSize)
    else Page(ordered, q.page, q.pageSize)
  }

  lemma PageIsPart<T>(s: seq<T>, page: nat, pageSize: nat, k: nat)
    requires page >= 1 && k < |Page(s, page, pageSize)|
    ensures Page(s, page, pageSize)[k] in s
  {
  }

  /** The from-price, or the base price if there were none. */
  function ShownPrices(snap: Snapshot, rows: seq<nat>, fromPrice: map<nat, int>): map<nat, int>
    requires forall k :: 0 <= k < |rows| ==> rows[k] < |snap.experiences|
  {
    map e | e in rows :: if e in fromPrice then fromPrice[e] else snap.experiences[e].basePriceCents
  }

  lemma AnswerIsPart(q: SearchQuery, ordered: seq<nat>)
    requires q.page >= 1
    ensures forall k :: 0 <= k < |GroupedAnswer(q, ordered)| ==> GroupedAnswer(q, ordered)[k] in ordered
  {
  }

  lemma ShownAreFromPrices(snap: Snapshot, tenantId: string, q: SearchQuery, now: int, ordered: seq<nat>,
                           slotRows: seq<nat>, fromPrice: map<nat, int>)
    requires ForeignKeys(snap) && ValidQuery(q) && GroupedRows(snap, tenantId, q, ordered)
    requires SlotRows(snap, tenantId, q, PricedIds(snap, tenantId, q, ordered), slotRows)
    requires IsMinimumMap(Offers(snap, q, slotRows, now), PricedIds(snap, tenantId, q, ordered), fromPrice)
    ensures forall k :: 0 <= k < |GroupedAnswer(q, ordered)| ==> GroupedAnswer(q, ordered)[k] < |snap.experiences|
    ensures PricesOf(snap, tenantId, q, now, GroupedAnswer(q, ordered),
        ShownPrices(snap, GroupedAnswer(q, ordered), fromPrice))
  {
    var rows: seq<nat>, ids: set<nat> := GroupedAnswer(q, ordered), PricedIds(snap, tenantId, q, ordered);
    AnswerIsPart(q, ordered);
    forall k | 0 <= k < |rows|
      ensures rows[k] < |snap.experiences| && rows[k] in fromPrice
           && IsFromPrice(snap, tenantId, q, now, rows[k], fromPrice[rows[k]])
    {
      var j :| 0 <= j < |ordered| && ordered[j] == rows[k];
      assert Listed(snap, tenantId, q, ordered[j]);
      FromPriceIsTrueMinimum(snap, tenantId, q, now, ids, slotRows, fromPrice, rows[k]);
    }
  }

  lemma PageIsPriced(q: SearchQuery, ordered: seq<nat>, price: map<nat, int>)
    requires q.page >= 1 && Priced(GroupedAnswer(q, ordered), price)
    ensures forall k :: 0 <= k < |PageIds(q, ordered, price)| ==>
        PageIds(q, ordered, price)[k] in GroupedAnswer(q, ordered)
    ensures Priced(PageIds(q, ordered, price), price)
  {
    var page := PageIds(q, ordered, price);
    forall k | 0 <= k < |page|
      ensures page[k] in GroupedAnswer(q, ordered) && page[k] in price
    {
      if q.sortBy.PRICE? {
        var sorted := StableSort(ordered, price, q.descending);
        PageIsPart(sorted, q.page, q.pageSize, k);
        assert page[k] in multiset(ordered) by { assert page[k] in multiset(sorted); }
      }
    }
  }

  /** Sort in memory and cut the page, unless the database has done both. */
  method SelectPage(q: SearchQuery, ordered: seq<nat>, shown: map<nat, int>) returns (pageRows: seq<nat>)
    requires q.page >= 1 && Priced(GroupedAnswer(q, ordered), shown)
    ensures pageRows == PageIds(q, ordered, shown)
  {
    pageRows := GroupedAnswer(q, ordered);
    if q.sortBy.PRICE? {
      var offset := (q.page - 1) * q.pageSize;
      pageRows := StableSort(pageRows, shown, q.descending);
      pageRows := Slice(pageRows, offset, offset + q.pageSize);
    }
  }

  /** `price` holds the true from-prices, and the result is the query's page of items at those prices. */
  predicate AnswersAt(snap: Snapshot, tenantId: string, q: SearchQuery, now: int, ordered: seq<nat>,
                      price: map<nat, int>, r: SearchResult)
    requires ForeignKeys(snap) && ValidQuery(q)
  {
    && PricesOf(snap, tenantId, q, now, GroupedAnswer(q, ordered), price)
    && Priced(GroupedAnswer(q, ordered), price) && Priced(PageIds(q, ordered, price), price)
    && r == SearchResult(ItemsOf(snap, tenantId, q, PageIds(q, ordered, price), price), q.page, q.pageSize,
                         |ordered|, TotalPages(|ordered|, q.pageSize))
  }

  ghost predicate IsAnswer(snap: Snapshot, tenantId: string, q: SearchQuery, now: int, ordered: seq<nat>,
      r: SearchResult)
    requires ForeignKeys(snap) && ValidQuery(q)
  {
    exists price :: AnswersAt(snap, tenantId, q, now, ordered, price, r)
  }

  method SearchExperiences(snap: Snapshot, tenantId: string, q: SearchQuery, ordered: seq<nat>,
      slotRows: seq<nat>, now: int)
    returns (r: SearchResult)
    requires ForeignKeys(snap) && ValidQuery(q)
    requires GroupedRows(snap, tenantId, q, ordered)
    requires SlotRows(snap, tenantId, q, PricedIds(snap, tenantId, q, ordered), slotRows)
    ensures IsAnswer(snap, tenantId, q, now, ordered, r)
  {
    var pageExperienceIds := PricedIds(snap, tenantId, q, ordered);
    var fromPrice := FromPrices(snap, q, slotRows, pageExperienceIds, now);
    ShownAreFromPrices(snap, tenantId, q, now, ordered, slotRows, fromPrice);
    var shown := ShownPrices(snap, GroupedAnswer(q, ordered), fromPrice);
    PageIsPriced(q, ordered, shown);
    var pageRows := SelectPage(q, ordered, shown);
    r := SearchResult(ItemsOf(snap, tenantId, q, pageRows, shown), q.page, q.pageSize, |ordered|,
        TotalPages(|ordered|, q.pageSize));
    assert AnswersAt(snap, tenantId, q, now, ordered, shown, r);
  }

  lemma SamePrices(snap: Snapshot, tenantId: string, q: SearchQuery, now: int, rows: seq<nat>, p1: map<nat, int>,
      p2: map<nat, int>)
    requires ForeignKeys(snap) && PricesOf(snap, tenantId, q, now, rows, p1)
        && PricesOf(snap, tenantId, q, now, rows, p2)
    ensures forall k :: 0 <= k < |rows| ==> p1[rows[k]] == p2[rows[k]]
  {
    forall k | 0 <= k < |rows| ensures p1[rows[k]] == p2[rows[k]] {
      FromPriceUnique(snap, tenantId, q, now, rows[k], p1[rows[k]], p2[rows[k]]);
    }
  }

  /** The sort looks at prices of its own rows only. */
  lemma SameSort(rows: seq<nat>, p1: map<nat, int>, p2: map<nat, int>, descending: bool)
    requires Distinct(rows) && Priced(rows, p1) && Priced(rows, p2)
    requires forall k :: 0 <= k < |rows| ==> p1[rows[k]] == p2[rows[k]]
    ensures StableSort(rows, p1, descending) == StableSort(rows, p2, descending)
  {
    var s, t := StableSort(rows, p1, descending), StableSort(rows, p2, descending);
    StableSortIsStable(rows, p1, descending);
    StableSortIsStable(rows, p2, descending);
    forall x | x in t ensures x in p1 && p1[x] == p2[x] {
      assert x in multiset(rows) by { assert x in multiset(t); }
      var k := InMultiset(rows, x);
    }
    forall i, j | 0 <= i < j < |t| ensures GoesBefore(rows, p1, descending, t[i], t[j]) {
      assert GoesBefore(rows, p2, descending, t[i], t[j]);
    }
    StableSortUnique(rows, p1, descending, s, t);
  }

  /** The answer is determined by the snapshot, the clock and the fetched order. */
  lemma AnswerUnique(snap: Snapshot, tenantId: string, q: SearchQuery, now: int, ordered: seq<nat>,
      r1: SearchResult, r2: SearchResult)
    requires ForeignKeys(snap) && ValidQuery(q) && Distinct(ordered)
    requires IsAnswer(snap, tenantId, q, now, ordered, r1) && IsAnswer(snap, tenantId, q, now, ordered, r2)
    ensures r1 == r2
  {
    var p1 :| AnswersAt(snap, tenantId, q, now, ordered, p1, r1);
    var p2 :| AnswersAt(snap, tenantId, q, now, ordered, p2, r2);
    var rows := GroupedAnswer(q, ordered);
    SamePrices(snap, tenantId, q, now, rows, p1, p2);
    if q.sortBy.PRICE? { SameSort(ordered, p1, p2, q.descending); }
    SameItems(snap, tenantId, q, ordered, p1, p2);
  }

  lemma SameItems(snap: Snapshot, tenantId: string, q: SearchQuery, ordered: seq<nat>, p1: map<nat, int>,
      p2: map<nat, int>)
    requires q.page >= 1 && Priced(GroupedAnswer(q, ordered), p1) && Priced(GroupedAnswer(q, ordered), p2)
    requires Priced(PageIds(q, ordered, p1), p1) && Priced(PageIds(q, ordered, p2), p2)
    requires PageIds(q, ordered, p1) == PageIds(q, ordered, p2)
    requires forall k :: 0 <= k < |GroupedAnswer(q, ordered)| ==>
        p1[GroupedAnswer(q, ordered)[k]] == p2[GroupedAnswer(q, ordered)[k]]
    ensures ItemsOf(snap, tenantId, q, PageIds(q, ordered, p1), p1)
        == ItemsOf(snap, tenantId, q, PageIds(q, ordered, p2), p2)
  {
    PageIsPriced(q, ordered, p1);
  }

  lemma ItemIsPriced(snap: Snapshot, tenantId: string, q: SearchQuery, now: int, ordered: seq<nat>,
                     price: map<nat, int>, r: SearchResult, k: nat)
    requires ForeignKeys(snap) && ValidQuery(q)
    requires AnswersAt(snap, tenantId, q, now, ordered, price, r) && k < |r.items|
    ensures IsFromPrice(snap, tenantId, q, now, r.items[k].id, r.items[k].fromPrice)
    ensures r.items[k].id in ordered
    ensures r.items[k].availableSlots == AvailableSlots(snap, tenantId, q, r.items[k].id)
    ensures r.items[k].earliestSlotAt == EarliestSlotAt(snap, tenantId, q, r.items[k].id)
  {
    PageIsPriced(q, ordered, price);
    AnswerIsPart(q, ordered);
    var id := PageIds(q, ordered, price)[k];
    var j :| 0 <= j < |GroupedAnswer(q, ordered)| && GroupedAnswer(q, ordered)[j] == id;
  }

  /** Every item shows the true minimum over its experience's eligible slots. */
  lemma ItemsShowFromPrice(snap: Snapshot, tenantId: string, q: SearchQuery, now: int, ordered: seq<nat>,
                           r: SearchResult, k: nat)
    requires ForeignKeys(snap) && ValidQuery(q)
    ensures IsAnswer(snap, tenantId, q, now, ordered, r) && k < |r.items| ==>
              IsFromPrice(snap, tenantId, q, now, r.items[k].id, r.items[k].fromPrice) && r.items[k].id in ordered
  {
    if IsAnswer(snap, tenantId, q, now, ordered, r) && k < |r.items| {
      var price :| AnswersAt(snap, tenantId, q, now, ordered, price, r);
      ItemIsPriced(snap, tenantId, q, now, ordered, price, r, k);
    }
  }

  /** How many eligible slots the item's experience has, and the first of their starts. */
  predicate ShowsAggregates(snap: Snapshot, tenantId: string, q: SearchQuery, item: Item) {
    && item.availableSlots == |EligibleBelow(snap, tenantId, q, item.id, |snap.slots|)|
    && item.earliestSlotAt.Some?
    && IsEarliest(snap, tenantId, q, item.id, |snap.slots|, item.earliestSlotAt.value)
  }

  /** Every item shows them. */
  lemma ItemsShowAggregates(snap: Snapshot, tenantId: string, q: SearchQuery, now: int, ordered: seq<nat>,
                            r: SearchResult, k: nat)
    requires ForeignKeys(snap) && ValidQuery(q)
    ensures IsAnswer(snap, tenantId, q, now, ordered, r) && k < |r.items| ==>
              ShowsAggregates(snap, tenantId, q, r.items[k])
  {
    if IsAnswer(snap, tenantId, q, now, ordered, r) && k < |r.items| {
      var price :| AnswersAt(snap, tenantId, q, now, ordered, price, r);
      ItemIsPriced(snap, tenantId, q, now, ordered, price, r, k);
      CountIsCardinality(snap, tenantId, q, r.items[k].id, |snap.slots|);
      EarliestIsMinimum(snap, tenantId, q, r.items[k].id, |snap.slots|);
    }
  }

  /** Pages 1 to totalPages of a price-sorted search list every matching experience that has an eligible slot
      exactly once, in the chosen price direction with ties as fetched; later pages are empty. */
  lemma PriceSortedPagesCover(snap: Snapshot, tenantId: string, q: SearchQuery, now: int, ordered: seq<nat>,
      price: map<nat, int>)
    requires ForeignKeys(snap) && ValidQuery(q) && q.sortBy.PRICE?
    requires GroupedRows(snap, tenantId, q, ordered) && PricesOf(snap, tenantId, q, now, ordered, price)
    ensures Priced(ordered, price)
    ensures var all := StableSort(ordered, price, q.descending);
            && IsStableSort(ordered, price, q.descending, all)
            && Pages(all, q.pageSize, TotalPages(|ordered|, q.pageSize)) == all
            && (forall e :: 0 <= e < |snap.experiences| ==>
                  multiset(all)[e] == if Listed(snap, tenantId, q, e) then 1 else 0)
            && (forall p :: p > TotalPages(|ordered|, q.pageSize) ==> PageIds(q.(page := p), ordered, price) == [])
  {
    var all := StableSort(ordered, price, q.descending);
    StableSortIsStable(ordered, price, q.descending);
    assert |all| == |multiset(all)| == |multiset(ordered)| == |ordered|;
    PagesCover(all, q.pageSize);
    forall e | 0 <= e < |snap.experiences|
      ensures multiset(ordered)[e] == if Listed(snap, tenantId, q, e) then 1 else 0
    {
      CountDistinct(ordered, e);
    }
  }

  lemma {:induction false} CountDistinct(rows: seq<nat>, e: nat)
    requires Distinct(rows)
    ensures multiset(rows)[e] == if e in rows then 1 else 0
  {
    if rows != [] {
      var n := |rows| - 1;
      CountDistinct(rows[..n], e);
      assert rows == rows[..n] + [rows[n]];
    }
  }
}
