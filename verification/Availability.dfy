/**
  Search, detail and booking on one database state: the three slot filters agree
  (src/services/experience.service.ts, src/services/booking.service.ts).
 */
module Availability {
  import opened Wrappers
  import opened Tables
  import opened Transactions
  import Search
  import CacheProtocol
  import RoundTrips

  /** The detail page a search result leads to: same party, same dates, every slot. */
  function DetailFor(tenantId: string, q: Search.SearchQuery, e: nat): CacheProtocol.Question {
    CacheProtocol.DetailOf(
      tenantId, e,
      CacheProtocol.Query(CacheProtocol.Filter(q.partySize, Some(q.startAt), Some(q.endAt), None), ""))
  }

  /** The search counts and prices exactly the slots that the experience's detail shows. */
  lemma SearchAgreesWithDetail(snap: Search.Snapshot, tenantId: string, q: Search.SearchQuery, e: nat)
    ensures forall s :: 0 <= s < |snap.slots| ==>
              (Search.EligibleFor(snap, tenantId, q, s, e)
               <==> s in CacheProtocol.Fresh(DetailFor(tenantId, q, e), snap.slots))
    ensures Search.HasEligibleSlot(snap, tenantId, q, e)
       <==> CacheProtocol.Fresh(DetailFor(tenantId, q, e), snap.slots) != map[]
  {
  }

  lemma AggregatesMatchDetail(snap: Search.Snapshot, tenantId: string, q: Search.SearchQuery, item: Search.Item)
    requires Search.ShowsAggregates(snap, tenantId, q, item)
    ensures var shown := CacheProtocol.Fresh(DetailFor(tenantId, q, item.id), snap.slots);
            && |shown| == item.availableSlots
            && (exists s :: s in shown && item.earliestSlotAt == Some(shown[s].startsAt.ms))
            && (forall s :: s in shown ==> item.earliestSlotAt.value <= shown[s].startsAt.ms)
  {
    var n := |snap.slots|;
    var shown := CacheProtocol.Fresh(DetailFor(tenantId, q, item.id), snap.slots);
    SearchAgreesWithDetail(snap, tenantId, q, item.id);
    assert shown.Keys == Search.EligibleBelow(snap, tenantId, q, item.id, n);
    var s :| 0 <= s < n && Search.EligibleFor(snap, tenantId, q, s, item.id)
             && snap.slots[s].startsAt.ms == item.earliestSlotAt.value;
    assert s in shown;
  }

  /** A search item says how many slots its detail shows, and when the first of them starts. */
  lemma ItemMatchesDetail(snap: Search.Snapshot, tenantId: string, q: Search.SearchQuery, now: int, ordered: seq<nat>,
                          r: Search.SearchResult, k: nat)
    requires Search.ForeignKeys(snap) && Search.ValidQuery(q)
    ensures Search.IsAnswer(snap, tenantId, q, now, ordered, r) && k < |r.items| ==>
              var item, shown := r.items[k], CacheProtocol.Fresh(DetailFor(tenantId, q, r.items[k].id), snap.slots);
              && |shown| == item.availableSlots
              && (exists s :: s in shown && item.earliestSlotAt == Some(shown[s].startsAt.ms))
              && (forall s :: s in shown ==> item.earliestSlotAt.value <= shown[s].startsAt.ms)
  {
    if Search.IsAnswer(snap, tenantId, q, now, ordered, r) && k < |r.items| {
      Search.ItemsShowAggregates(snap, tenantId, q, now, ordered, r, k);
      AggregatesMatchDetail(snap, tenantId, q, r.items[k]);
    }
  }

  /** The detail for a party, every slot at any date. */
  function AllSlots(tenantId: string, e: nat, partySize: int): CacheProtocol.Question {
    CacheProtocol.DetailOf(
      tenantId, e, CacheProtocol.Query(CacheProtocol.Filter(partySize, None, None, None), ""))
  }

  /** A slot of a bookable experience can be booked by a party exactly if the detail for that party shows it. */
  lemma ShownIffBookable(db: Db, e: nat, op: Op)
    requires op.OpCreate? && op.partySize >= 1 && !ReferenceTaken(db.bookings, op.reference)
    requires e in db.activeExperiences && op.slotId < |db.slots| && db.slots[op.slotId].experienceId == e
    ensures Whole(db, op).Ok?
       <==> op.slotId in CacheProtocol.Fresh(AllSlots(op.tenantId, e, op.partySize), db.slots)
  {
    RoundTrips.CreateSucceedsIff(db, op);
  }

  /** Booking takes exactly the party's seats out of what the detail shows next. */
  lemma BookingShrinksView(db: Db, op: Op, key: CacheProtocol.Question)
    requires op.OpCreate? && op.partySize >= 1 && Whole(db, op).Ok?
    requires op.slotId < |db.slots| && op.slotId in CacheProtocol.Fresh(key, db.slots)
    ensures var before, after := CacheProtocol.Fresh(key, db.slots),
        CacheProtocol.Fresh(key, Whole(db, op).value.slots);
            && after.Keys <= before.Keys
            && (forall s :: s in before && s != op.slotId ==> s in after && after[s] == before[s])
            && (op.slotId in after <==> before[op.slotId].availableSpots - op.partySize >= key.query.filter.partySize)
            && (op.slotId in after ==>
                  after[op.slotId].availableSpots == before[op.slotId].availableSpots - op.partySize)
  {
    var slots, slots' := db.slots, Whole(db, op).value.slots;
    assert slots' == slots[op.slotId := Bump(slots[op.slotId], op.partySize)];
  }

  // ---------- what an answer shows ----------

  /** A slot is shown as it is stored: its experience, start, capacity and seats taken, and the seats left. */
  lemma ViewsShowRows(q: CacheProtocol.Question, slots: seq<Slot>, s: nat)
    requires s in CacheProtocol.Fresh(q, slots)
    ensures s < |slots|
    ensures var view, slot := CacheProtocol.Fresh(q, slots)[s], slots[s];
            && view.experienceId == slot.experienceId && view.startsAt == slot.startsAt
            && view.slotCapacity == slot.capacity && view.reserved == slot.reserved
            && view.availableSpots == view.slotCapacity - view.reserved
  {
  }

  /** What a detail's optional filters let through, of the slots shown without them. */
  predicate Passes(filter: CacheProtocol.Filter, s: nat, view: CacheProtocol.View) {
    && (filter.slotId == None || filter.slotId == Some(s))
    && (filter.startAt == None || filter.startAt.value <= view.startsAt.ms)
    && (filter.endAt == None || view.startsAt.ms < filter.endAt.value)
  }

  /** A detail with a slot id or dates is the detail without them, cut down to that slot and those dates. */
  lemma DetailFilters(tenantId: string, e: nat, query: CacheProtocol.Query, slots: seq<Slot>)
    ensures var all := CacheProtocol.Fresh(AllSlots(tenantId, e, query.filter.partySize), slots);
            CacheProtocol.Fresh(CacheProtocol.DetailOf(tenantId, e, query), slots)
            == map s | s in all && Passes(query.filter, s, all[s]) :: all[s]
  {
  }

  /** In particular, asking for one slot shows that slot or none. */
  lemma OneSlotDetail(tenantId: string, e: nat, query: CacheProtocol.Query, slots: seq<Slot>, x: nat)
    requires query.filter.slotId == Some(x)
    ensures var without := query.(filter := query.filter.(slotId := None));
            var all := CacheProtocol.Fresh(CacheProtocol.DetailOf(tenantId, e, without), slots);
            CacheProtocol.Fresh(CacheProtocol.DetailOf(tenantId, e, query), slots)
            == if x in all then map[x := all[x]] else map[]
  {
  }

  /** A search rests on what the details of the tenant's experiences show for the same query. */
  lemma SearchIsAllDetails(tenantId: string, query: CacheProtocol.Query, slots: seq<Slot>, s: nat)
    ensures var shown := CacheProtocol.Fresh(CacheProtocol.SearchFor(tenantId, query), slots);
            s in shown
            <==> s < |slots| && s in CacheProtocol.Fresh(
                   CacheProtocol.DetailOf(tenantId, slots[s].experienceId, query), slots)
  {
  }
}
