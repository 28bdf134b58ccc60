/**
  The booking service itself (src/services/booking.service.ts): methods that
  change the tables in place, step by step, each transaction undone as a whole
  when one of its statements fails.
 */
module BookingService {
  import opened Wrappers
  import opened BookingState
  import opened Tables
  import opened Transactions
  import opened Expiry

  class BookingStore {
    const activeExperiences: set<nat>
    var slots: seq<Slot>
    var bookings: seq<Booking>
    var history: seq<HistoryRow>
    var audit: seq<AuditRow>

    constructor (db: Db)
      ensures Contents() == db
    {
      activeExperiences := db.activeExperiences;
      slots, bookings, history, audit := db.slots, db.bookings, db.history, db.audit;
    }

    function Contents(): Db
      reads this
    {
      Db(activeExperiences, slots, bookings, history, audit)
    }

    /** The slot UPDATE: on a conflict no row changes. */
    method AdjustSlotReserved(slotId: nat, tenantId: string, delta: int, expectedVersion: int)
      returns (r: Result<()>)
      modifies this`slots
      ensures match AdjustSlot(old(slots), slotId, tenantId, delta, expectedVersion)
              case Ok(after) => r.Ok? && slots == after
              case Err(e) => r == Err(e) && slots == old(slots)
    {
      var matching := slotId < |slots| && slots[slotId].tenantId == tenantId
          && slots[slotId].version == expectedVersion;
      if delta > 0 {
        if matching && slots[slotId].capacity - slots[slotId].reserved >= delta {
          var slot := slots[slotId];
          slots := slots[slotId := slot.(reserved := slot.reserved + delta, version := slot.version + 1)];
          return Ok(());
        }
        return Err(Conflict("Slot no longer available"));
      }
      var release := -delta;
      if matching && slots[slotId].reserved >= release {
        var slot := slots[slotId];
        slots := slots[slotId := slot.(reserved := slot.reserved - release, version := slot.version + 1)];
        return Ok(());
      }
      return Err(Conflict("Failed to release slot reservation"));
    }

    method AppendStatusHistory(bookingId: nat, fromStatus: Option<Status>, toStatus: Status,
                               actorUserId: Option<string>, reason: Option<string>)
      modifies this`history
      ensures history == old(history) + [HistoryRow(bookingId, fromStatus, toStatus, actorUserId, reason)]
    {
      history := history + [HistoryRow(bookingId, fromStatus, toStatus, actorUserId, reason)];
    }

    method LogAudit(row: AuditRow)
      modifies this`audit
      ensures audit == old(audit) + [row]
    {
      audit := audit + [row];
    }

    method UpdateStatus(bookingId: nat, status: Status)
      requires bookingId < |bookings|
      modifies this`bookings
      ensures bookings == old(bookings)[bookingId := old(bookings)[bookingId].(status := status, reservedUntil := None)]
    {
      bookings := bookings[bookingId := bookings[bookingId].(status := status, reservedUntil := None)];
    }

    /** Roll back: every table as it was when the transaction began. */
    method Rollback(db: Db)
      modifies this`slots, this`bookings, this`history, this`audit
      requires db.activeExperiences == activeExperiences
      ensures Contents() == db
    {
      slots, bookings, history, audit := db.slots, db.bookings, db.history, db.audit;
    }

    // ---------- transactions ----------

    method CommitCreation(p: Pending, reference: string) returns (r: Result<nat>)
      requires p.PendingCreate?
      modifies this`slots, this`bookings, this`history, this`audit
      ensures match CommitCreate(old(Contents()), p, reference)
              case Ok(after) => Contents() == after && r == Ok(|old(bookings)|)
              case Err(e) => Contents() == old(Contents()) && r == Err(e)
    {
      var begin := Contents();
      var adjusted := AdjustSlotReserved(p.slotId, p.tenantId, p.partySize, p.version);
      if adjusted.Err? { return Err(adjusted.error); }
      if exists k :: 0 <= k < |bookings| && bookings[k].reference == reference {
        Rollback(begin);
        return Err(UniqueViolation);
      }
      var id := |bookings|;
      bookings := bookings + [Booking(reference, p.tenantId, p.userId, p.experienceId, p.slotId, p.partySize,
                                      p.totalPrice, RESERVED, Some(p.reservedUntil))];
      AppendStatusHistory(id, None, RESERVED, Some(p.userId), None);
      LogAudit(AuditRow(BOOKING_RESERVED, p.tenantId, Some(p.userId), id, reference, None));
      return Ok(id);
    }

    method CommitConfirmation(p: Pending) returns (r: Result<nat>)
      requires p.PendingConfirm?
      modifies this`bookings, this`history, this`audit
      ensures match CommitConfirm(old(Contents()), p)
              case Ok(after) => Contents() == after && r == Ok(p.bookingId)
              case Err(e) => Contents() == old(Contents()) && r == Err(e)
    {
      if p.bookingId >= |bookings| { return Err(NotFound); }
      UpdateStatus(p.bookingId, CONFIRMED);
      AppendStatusHistory(p.bookingId, Some(p.fromStatus), CONFIRMED, Some(p.userId), None);
      LogAudit(AuditRow(BOOKING_CONFIRMED, p.tenantId, Some(p.userId), p.bookingId, p.reference, Some(p.fromStatus)));
      return Ok(p.bookingId);
    }

    method CommitCancellation(p: Pending) returns (r: Result<nat>)
      requires p.PendingCancel?
      modifies this`slots, this`bookings, this`history, this`audit
      ensures match CommitCancel(old(Contents()), p)
              case Ok(after) => Contents() == after && r == Ok(p.bookingId)
              case Err(e) => Contents() == old(Contents()) && r == Err(e)
    {
      var begin := Contents();
      var adjusted := AdjustSlotReserved(p.slotId, p.tenantId, -p.partySize, p.version);
      if adjusted.Err? { return Err(adjusted.error); }
      if p.bookingId >= |bookings| {
        Rollback(begin);
        return Err(NotFound);
      }
      UpdateStatus(p.bookingId, CANCELLED);
      AppendStatusHistory(p.bookingId, Some(p.fromStatus), CANCELLED, Some(p.userId), Some(p.reason));
      LogAudit(AuditRow(BOOKING_CANCELLED, p.tenantId, Some(p.userId), p.bookingId, p.reference, Some(p.fromStatus)));
      return Ok(p.bookingId);
    }

    /** Claims the booking first, then releases its seats; a conflict there takes the claim back. */
    method ExpireReservation(booking: StaleRow, now: int) returns (r: Result<bool>)
      modifies this`slots, this`bookings, this`history, this`audit
      ensures match ExpireTx(old(Contents()), booking, now)
              case Ok(Some(after)) => Contents() == after && r == Ok(true)
              case Ok(None) => Contents() == old(Contents()) && r == Ok(false)
              case Err(e) => Contents() == old(Contents()) && r == Err(e)
    {
      var begin := Contents();
      var claimed := booking.id < |bookings| && IsOverdue(bookings[booking.id], now);
      if !claimed { return Ok(false); }
      UpdateStatus(booking.id, EXPIRED);
      if booking.slotId >= |slots| || slots[booking.slotId].tenantId != booking.tenantId {
        Rollback(begin);
        return Err(Conflict("Slot not found while expiring reservation"));
      }
      var version := slots[booking.slotId].version;
      var adjusted := AdjustSlotReserved(booking.slotId, booking.tenantId, -booking.partySize, version);
      if adjusted.Err? {
        Rollback(begin);
        return Err(adjusted.error);
      }
      AppendStatusHistory(booking.id, Some(RESERVED), EXPIRED, None, Some("Reservation hold expired"));
      LogAudit(AuditRow(BOOKING_EXPIRED, booking.tenantId, None, booking.id, booking.reference, Some(RESERVED)));
      return Ok(true);
    }

    // ---------- whole requests, nothing else running ----------

    /** `totalPrice`, `now` and `reference` come from the price preview, the clock and the generator. */
    method CreateReservation(tenantId: string, userId: string, slotId: nat, partySize: int, totalPrice: int,
                             now: int, ttl: nat, reference: string) returns (r: Result<nat>)
      modifies this`slots, this`bookings, this`history, this`audit
      ensures match Whole(old(Contents()),
          OpCreate(tenantId, userId, slotId, partySize, totalPrice, now + ttl, reference))
              case Ok(after) => Contents() == after && r == Ok(|old(bookings)|)
              case Err(e) => Contents() == old(Contents()) && r == Err(e)
    {
      if slotId >= |slots| || slots[slotId].tenantId != tenantId || slots[slotId].experienceId !in activeExperiences {
        return Err(NotFound);
      }
      var slot := slots[slotId];
      if slot.capacity - slot.reserved < partySize {
        return Err(Conflict("Slot no longer available"));
      }
      var reservedUntil := now + ttl;
      r := CommitCreation(
        PendingCreate(tenantId, userId, slotId, slot.experienceId, partySize, totalPrice, slot.version, reservedUntil),
        reference);
    }

    method ConfirmReservation(tenantId: string, userId: string, reference: string, now: int) returns (r: Result<nat>)
      modifies this`bookings, this`history, this`audit
      ensures match Whole(old(Contents()), OpConfirm(tenantId, userId, reference, now))
              case Ok(after) => Contents() == after && r.Ok?
                  && Some(r.value) == FindOwned(old(bookings), tenantId, userId, reference)
              case Err(e) => Contents() == old(Contents()) && r == Err(e)
    {
      var found := FindOwned(bookings, tenantId, userId, reference);
      if found.None? { return Err(NotFound); }
      var booking := bookings[found.value];
      var allowed := AssertTransition(Some(booking.status), CONFIRMED);
      if allowed.Err? { return Err(allowed.error); }
      if booking.reservedUntil.Some? && booking.reservedUntil.value < now {
        return Err(Conflict("Reservation hold has expired"));
      }
      r := CommitConfirmation(PendingConfirm(tenantId, userId, found.value, reference, booking.status, now));
    }

    method CancelReservation(tenantId: string, userId: string, reference: string, reason: string)
      returns (r: Result<nat>)
      modifies this`slots, this`bookings, this`history, this`audit
      ensures match Whole(old(Contents()), OpCancel(tenantId, userId, reference, reason))
              case Ok(after) => Contents() == after && r.Ok?
                  && Some(r.value) == FindOwned(old(bookings), tenantId, userId, reference)
              case Err(e) => Contents() == old(Contents()) && r == Err(e)
    {
      var found := FindOwned(bookings, tenantId, userId, reference);
      if found.None? { return Err(NotFound); }
      var booking := bookings[found.value];
      if booking.slotId >= |slots| { return Err(NotFound); }
      if !IsCancellable(booking.status) { return Err(Conflict("Cannot cancel booking")); }
      // A cancellable booking always passes the transition check.
      assert AssertTransition(Some(booking.status), CANCELLED).Ok?;
      r := CommitCancellation(
        PendingCancel(tenantId, userId, found.value, reference, booking.status, booking.slotId, booking.partySize,
                      slots[booking.slotId].version, reason));
    }

    /** One poll over the rows the query returned; conflicts are left for the next poll. */
    method ExpireStaleReservations(stale: seq<StaleRow>, times: seq<int>) returns (expired: nat)
      requires |stale| == |times|
      modifies this`slots, this`bookings, this`history, this`audit
      ensures Contents() == Poll(old(Contents()), stale, times).db
      ensures expired == Poll(old(Contents()), stale, times).expired
      ensures ExpiredBookings(bookings) == old(ExpiredBookings(bookings)) + expired
    {
      expired := 0;
      for i := 0 to |stale|
        invariant Poll(old(Contents()), stale[..i], times[..i]) == PollResult(Contents(), expired)
      {
        assert stale[..i + 1][..i] == stale[..i] && times[..i + 1][..i] == times[..i];
        var didExpire := ExpireReservation(stale[i], times[i]);
        if didExpire == Ok(true) {
          expired := expired + 1;
        }
      }
      assert stale[..|stale|] == stale && times[..|times|] == times;
      PollCountsExpired(old(Contents()), stale, times);
    }
  }
}
