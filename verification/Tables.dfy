/**
  The database tables the booking service works on.

  A row's generated id is its position in the table.  Slots and experiences are
  never added by the modelled code and no row is ever deleted, so positions are
  stable and a new booking's id is the current length of the table.
 */
module Tables {
  import opened Wrappers
  import opened BookingState

  /** A point in time; the calendar month is an input, the calendar itself is not modelled. */
  datatype Instant = Instant(ms: int, utcMonth: int)

  datatype Slot = Slot(
    tenantId: string, experienceId: nat, startsAt: Instant, capacity: int, reserved: int, version: int)

  datatype Booking = Booking(
    reference: string, tenantId: string, userId: string, experienceId: nat, slotId: nat,
    partySize: int, totalPrice: int, status: Status, reservedUntil: Option<int>)

  datatype HistoryRow = HistoryRow(
    bookingId: nat, fromStatus: Option<Status>, toStatus: Status, actorUserId: Option<string>, reason: Option<string>)

  datatype EventType = BOOKING_RESERVED | BOOKING_CONFIRMED | BOOKING_CANCELLED | BOOKING_EXPIRED

  datatype AuditRow = AuditRow(
    eventType: EventType, tenantId: string, actorUserId: Option<string>, entityId: nat,
    bookingRef: string, previousStatus: Option<Status>)

  datatype Db = Db(
    activeExperiences: set<nat>, slots: seq<Slot>, bookings: seq<Booking>,
    history: seq<HistoryRow>, audit: seq<AuditRow>)

  function Spots(slot: Slot): int {
    slot.capacity - slot.reserved
  }

  predicate IsActive(b: Booking) {
    IsCancellable(b.status)
  }

  /** What one booking holds of a slot. */
  function Weight(b: Booking, slotId: nat): int {
    if b.slotId == slotId && IsActive(b) then b.partySize else 0
  }

  /** The seats held on a slot: party sizes of its RESERVED and CONFIRMED bookings. */
  function ActiveSum(bookings: seq<Booking>, slotId: nat): int {
    if bookings == [] then 0
    else
      var n := |bookings| - 1;
      ActiveSum(bookings[..n], slotId) + Weight(bookings[n], slotId)
  }

  lemma ActiveSumAppend(bookings: seq<Booking>, b: Booking, slotId: nat)
    ensures ActiveSum(bookings + [b], slotId) == ActiveSum(bookings, slotId) + Weight(b, slotId)
  {
    assert (bookings + [b])[..|bookings|] == bookings;
  }

  lemma {:induction false} ActiveSumUpdate(bookings: seq<Booking>, i: nat, b: Booking, slotId: nat)
    requires i < |bookings|
    ensures ActiveSum(bookings[i := b], slotId)
         == ActiveSum(bookings, slotId) - Weight(bookings[i], slotId) + Weight(b, slotId)
  {
    var n := |bookings| - 1;
    if i == n {
      assert bookings[i := b][..n] == bookings[..n];
    } else {
      ActiveSumUpdate(bookings[..n], i, b, slotId);
      assert bookings[i := b][..n] == bookings[..n][i := b];
    }
  }

  /** One active booking's seats are part of the sum. */
  lemma {:induction false} ActiveSumAtLeast(bookings: seq<Booking>, i: nat, slotId: nat)
    requires i < |bookings|
    requires forall k :: 0 <= k < |bookings| ==> bookings[k].partySize >= 0
    ensures Weight(bookings[i], slotId) <= ActiveSum(bookings, slotId)
  {
    var n := |bookings| - 1;
    ActiveSumNonNegative(bookings[..n], slotId);
    if i < n {
      ActiveSumAtLeast(bookings[..n], i, slotId);
    }
  }

  lemma {:induction false} ActiveSumNonNegative(bookings: seq<Booking>, slotId: nat)
    requires forall k :: 0 <= k < |bookings| ==> bookings[k].partySize >= 0
    ensures ActiveSum(bookings, slotId) >= 0
  {
    if bookings != [] {
      ActiveSumNonNegative(bookings[..|bookings| - 1], slotId);
    }
  }

  /** The status history of one booking, oldest row first. */
  function HistoryOf(history: seq<HistoryRow>, bookingId: nat): seq<HistoryRow> {
    if history == [] then []
    else
      var n := |history| - 1;
      var earlier := HistoryOf(history[..n], bookingId);
      if history[n].bookingId == bookingId then earlier + [history[n]] else earlier
  }

  lemma HistoryOfAppend(history: seq<HistoryRow>, row: HistoryRow, bookingId: nat)
    ensures HistoryOf(history + [row], bookingId)
         == HistoryOf(history, bookingId) + (if row.bookingId == bookingId then [row] else [])
  {
    assert (history + [row])[..|history|] == history;
  }

  lemma {:induction false} HistoryOfUnseen(history: seq<HistoryRow>, bookingId: nat)
    requires forall k :: 0 <= k < |history| ==> history[k].bookingId != bookingId
    ensures HistoryOf(history, bookingId) == []
  {
    if history != [] {
      HistoryOfUnseen(history[..|history| - 1], bookingId);
    }
  }

  /** findFirst by tenant, user and reference. */
  function FindOwned(bookings: seq<Booking>, tenantId: string, userId: string, reference: string): (r: Option<nat>)
    ensures r.Some? ==> r.value < |bookings| && Owned(bookings[r.value], tenantId, userId, reference)
    ensures r.None? ==> forall k :: 0 <= k < |bookings| ==> !Owned(bookings[k], tenantId, userId, reference)
  {
    if bookings == [] then None
    else
      var n := |bookings| - 1;
      var earlier := FindOwned(bookings[..n], tenantId, userId, reference);
      if earlier.Some? then earlier
      else if Owned(bookings[n], tenantId, userId, reference) then Some(n)
      else None
  }

  predicate Owned(b: Booking, tenantId: string, userId: string, reference: string) {
    b.tenantId == tenantId && b.userId == userId && b.reference == reference
  }

  /** The unique constraint on bookings.reference. */
  predicate UniqueReferences(bookings: seq<Booking>) {
    forall i, j :: 0 <= i < j < |bookings| ==> bookings[i].reference != bookings[j].reference
  }

  predicate ReferenceTaken(bookings: seq<Booking>, reference: string) {
    exists k :: 0 <= k < |bookings| && bookings[k].reference == reference
  }

  /** Foreign keys, the unique constraint, and the request schema's party size of at least one. */
  predicate WellFormed(db: Db) {
    && (forall b :: 0 <= b < |db.bookings| ==> BookingWellFormed(db, db.bookings[b]))
    && UniqueReferences(db.bookings)
    && (forall h :: 0 <= h < |db.history| ==> db.history[h].bookingId < |db.bookings|)
  }

  predicate BookingWellFormed(db: Db, b: Booking) {
    && b.slotId < |db.slots|
    && b.tenantId == db.slots[b.slotId].tenantId
    && b.partySize >= 1
  }
}
