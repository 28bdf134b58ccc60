/**
  What any number of transactions may do to the database, stated without
  mentioning the transactions: the relation `Evolves` between an earlier and a
  later database, and what a waiting request may rely on meanwhile.
 */
module Evolution {
  import opened Wrappers
  import opened BookingState
  import opened Tables
  import opened Transactions

  /** A slot's version never falls, and a slot whose version stood still did not change at all. */
  predicate SlotEvolves(s: Slot, s': Slot) {
    && s'.tenantId == s.tenantId && s'.experienceId == s.experienceId
    && s'.startsAt == s.startsAt && s'.capacity == s.capacity
    && s.version <= s'.version
    && (s.version == s'.version ==> s' == s)
  }

  /** A row is untouched, or it has left RESERVED for good and its hold is cleared; nothing else ever changes. */
  predicate BookingEvolves(b: Booking, b': Booking) {
    && b' == b.(status := b'.status, reservedUntil := b'.reservedUntil)
    && (b' == b || (b'.status != RESERVED && b'.reservedUntil.None?))
  }

  /** While the slot's version stands still, none of its bookings becomes CANCELLED or EXPIRED. */
  predicate KeepsHold(d: Db, d': Db, b: nat)
    requires b < |d.bookings| <= |d'.bookings| && |d.slots| == |d'.slots|
  {
    var slotId := d.bookings[b].slotId;
    (slotId < |d.slots| && d.slots[slotId].version == d'.slots[slotId].version && IsFinal(d'.bookings[b].status))
    ==> d.bookings[b].status == d'.bookings[b].status
  }

  /** A new booking moved its slot's version on. */
  predicate NewBookingMovedVersion(d: Db, d': Db, b: nat)
    requires b < |d'.bookings| && |d.slots| == |d'.slots|
  {
    var slotId := d'.bookings[b].slotId;
    slotId < |d.slots| && d.slots[slotId].version < d'.slots[slotId].version
  }

  predicate Evolves(d: Db, d': Db) {
    && d.activeExperiences == d'.activeExperiences
    && |d.slots| == |d'.slots|
    && |d.bookings| <= |d'.bookings|
    && (forall s :: 0 <= s < |d.slots| ==> SlotEvolves(d.slots[s], d'.slots[s]))
    && (forall b :: 0 <= b < |d.bookings| ==> BookingEvolves(d.bookings[b], d'.bookings[b]))
    && (forall b :: 0 <= b < |d.bookings| ==> KeepsHold(d, d', b))
    && (forall b :: |d.bookings| <= b < |d'.bookings| ==> NewBookingMovedVersion(d, d', b))
  }

  lemma EvolvesTransitive(d0: Db, d1: Db, d2: Db)
    requires Evolves(d0, d1) && Evolves(d1, d2)
    ensures Evolves(d0, d2)
  {
    forall s | 0 <= s < |d0.slots|
      ensures SlotEvolves(d0.slots[s], d2.slots[s])
    {
      assert SlotEvolves(d0.slots[s], d1.slots[s]) && SlotEvolves(d1.slots[s], d2.slots[s]);
    }
    forall b | 0 <= b < |d0.bookings|
      ensures BookingEvolves(d0.bookings[b], d2.bookings[b]) && KeepsHold(d0, d2, b)
    {
      assert BookingEvolves(d0.bookings[b], d1.bookings[b]) && BookingEvolves(d1.bookings[b], d2.bookings[b]);
      assert KeepsHold(d0, d1, b) && KeepsHold(d1, d2, b);
      var slotId := d0.bookings[b].slotId;
      if slotId < |d0.slots| {
        assert SlotEvolves(d0.slots[slotId], d1.slots[slotId]) && SlotEvolves(d1.slots[slotId], d2.slots[slotId]);
      }
    }
    forall b | |d0.bookings| <= b < |d2.bookings|
      ensures NewBookingMovedVersion(d0, d2, b)
    {
      var slotId := d2.bookings[b].slotId;
      if b < |d1.bookings| {
        assert NewBookingMovedVersion(d0, d1, b) && BookingEvolves(d1.bookings[b], d2.bookings[b]);
      } else {
        assert NewBookingMovedVersion(d1, d2, b);
      }
      assert SlotEvolves(d0.slots[slotId], d1.slots[slotId]) && SlotEvolves(d1.slots[slotId], d2.slots[slotId]);
    }
  }

  /** A row selected by an earlier expiry query still has the booking's values. */
  lemma StaleRowStable(d: Db, d': Db, id: nat)
    requires Evolves(d, d') && id < |d.bookings|
    ensures SelectStale(d'.bookings, id) == SelectStale(d.bookings, id)
  {
  }

  // ---------- what a waiting request relies on ----------

  predicate PendingOk(db: Db, p: Pending) {
    match p
    case PendingCreate(tenantId, userId, slotId, experienceId, partySize, totalPrice, version, reservedUntil) =>
      && slotId < |db.slots|
      && db.slots[slotId].tenantId == tenantId
      && db.slots[slotId].experienceId == experienceId
      && experienceId in db.activeExperiences
      && partySize >= 1
      && version <= db.slots[slotId].version
      && (version == db.slots[slotId].version ==> Spots(db.slots[slotId]) >= partySize)
    case PendingConfirm(tenantId, userId, bookingId, reference, fromStatus, readAt) =>
      && bookingId < |db.bookings|
      && Owned(db.bookings[bookingId], tenantId, userId, reference)
      && fromStatus == RESERVED
      && (db.bookings[bookingId].status == RESERVED ==> !HoldLapsed(db.bookings[bookingId].reservedUntil, readAt))
      && (db.bookings[bookingId].status == CONFIRMED ==> db.bookings[bookingId].reservedUntil.None?)
    case PendingCancel(tenantId, userId, bookingId, reference, fromStatus, slotId, partySize, version, reason) =>
      && bookingId < |db.bookings|
      && Owned(db.bookings[bookingId], tenantId, userId, reference)
      && IsCancellable(fromStatus)
      && slotId == db.bookings[bookingId].slotId && slotId < |db.slots|
      && partySize == db.bookings[bookingId].partySize
      && version <= db.slots[slotId].version
      && (version == db.slots[slotId].version ==> IsActive(db.bookings[bookingId]))
  }

  /** A successful read establishes what its transaction relies on. */
  lemma ReadEstablishes(db: Db, op: Op)
    requires WellFormed(db) && !op.OpExpire?
    requires op.OpCreate? ==> op.partySize >= 1
    ensures ReadPhase(db, op).Ok? ==> PendingOk(db, ReadPhase(db, op).value)
  {
  }

  /** Nothing other requests do takes it away. */
  lemma PendingStable(d: Db, d': Db, p: Pending)
    requires PendingOk(d, p) && Evolves(d, d')
    ensures PendingOk(d', p)
  {
    if p.PendingCreate? {
      assert SlotEvolves(d.slots[p.slotId], d'.slots[p.slotId]);
    } else {
      assert BookingEvolves(d.bookings[p.bookingId], d'.bookings[p.bookingId]);
      if p.PendingCancel? {
        assert SlotEvolves(d.slots[p.slotId], d'.slots[p.slotId]);
        assert KeepsHold(d, d', p.bookingId);
      }
    }
  }

  // ---------- each transaction is an evolution ----------

  lemma MoveEvolves(db: Db, slots: seq<Slot>, bookingId: nat, from: Status, to: Status, tenantId: string,
                    reference: string, actor: Option<string>, reason: Option<string>)
    requires WellFormed(db) && bookingId < |db.bookings| && to != RESERVED
    requires |slots| == |db.slots|
    requires forall s :: 0 <= s < |slots| ==> SlotEvolves(db.slots[s], slots[s])
    requires IsFinal(to) ==> var s := db.bookings[bookingId].slotId; db.slots[s].version < slots[s].version
    ensures var after := Move(db, slots, bookingId, from, to, tenantId, reference, actor, reason);
            WellFormed(after) && Evolves(db, after)
  {
    var after := Move(db, slots, bookingId, from, to, tenantId, reference, actor, reason);
    forall b | 0 <= b < |after.bookings|
      ensures BookingWellFormed(after, after.bookings[b])
      ensures BookingEvolves(db.bookings[b], after.bookings[b]) && KeepsHold(db, after, b)
    {
      assert BookingWellFormed(db, db.bookings[b]);
      assert SlotEvolves(db.slots[db.bookings[b].slotId], slots[db.bookings[b].slotId]);
    }
    forall i, j | 0 <= i < j < |after.bookings|
      ensures after.bookings[i].reference != after.bookings[j].reference
    {
      assert db.bookings[i].reference != db.bookings[j].reference;
    }
  }

  lemma CommitEvolves(db: Db, p: Pending, reference: string)
    requires WellFormed(db) && PendingOk(db, p) && Commit(db, p, reference).Ok?
    ensures var after := Commit(db, p, reference).value; WellFormed(after) && Evolves(db, after)
  {
    match p
    case PendingCreate(_, _, _, _, _, _, _, _) =>
      var after := Commit(db, p, reference).value;
      forall b | 0 <= b < |after.bookings|
        ensures BookingWellFormed(after, after.bookings[b])
      {
        if b < |db.bookings| { assert BookingWellFormed(db, db.bookings[b]); }
      }
    case PendingConfirm(tenantId, userId, bookingId, ref, from, _) =>
      MoveEvolves(db, db.slots, bookingId, from, CONFIRMED, tenantId, ref, Some(userId), None);
    case PendingCancel(tenantId, userId, bookingId, ref, from, slotId, partySize, version, reason) =>
      var slots := AdjustSlot(db.slots, slotId, tenantId, -partySize, version).value;
      MoveEvolves(db, slots, bookingId, from, CANCELLED, tenantId, ref, Some(userId), Some(reason));
  }

  lemma ExpireEvolves(db: Db, id: nat, now: int)
    requires WellFormed(db) && id < |db.bookings|
    ensures var after := ExpireDb(db, SelectStale(db.bookings, id), now); WellFormed(after) && Evolves(db, after)
  {
    var row := SelectStale(db.bookings, id);
    match ExpireTx(db, row, now)
    case Ok(Some(after)) =>
      assert BookingWellFormed(db, db.bookings[id]);
      var slots := AdjustSlot(db.slots, row.slotId, row.tenantId, -row.partySize, db.slots[row.slotId].version).value;
      MoveEvolves(db, slots, id, RESERVED, EXPIRED, row.tenantId, row.reference, None,
          Some("Reservation hold expired"));
    case Ok(None) =>
    case Err(_) =>
  }

  // ---------- accounting ----------

  /** Seats held by bookings but not counted in the slot's `reserved`. */
  function Gap(db: Db, slotId: nat): int
    requires slotId < |db.slots|
  {
    ActiveSum(db.bookings, slotId) - db.slots[slotId].reserved
  }

  /** A confirm about to land on a booking that was cancelled or expired after the read. */
  predicate IsLate(db: Db, p: Pending) {
    p.PendingConfirm? && p.bookingId < |db.bookings| && IsFinal(db.bookings[p.bookingId].status)
  }

  function LateSeats(db: Db, p: Pending, slotId: nat): int {
    if IsLate(db, p) && db.bookings[p.bookingId].slotId == slotId then db.bookings[p.bookingId].partySize else 0
  }

  /** A transaction moves the gap by exactly the seats of a late confirm. */
  lemma CommitAccounting(db: Db, p: Pending, reference: string, slotId: nat)
    requires WellFormed(db) && PendingOk(db, p) && slotId < |db.slots| && Commit(db, p, reference).Ok?
    ensures |Commit(db, p, reference).value.slots| == |db.slots|
    ensures Gap(Commit(db, p, reference).value, slotId) == Gap(db, slotId) + LateSeats(db, p, slotId)
  {
    var after := Commit(db, p, reference).value;
    if p.PendingCreate? {
      ActiveSumAppend(db.bookings, after.bookings[|db.bookings|], slotId);
    } else {
      ActiveSumUpdate(db.bookings, p.bookingId, after.bookings[p.bookingId], slotId);
    }
  }

  lemma ExpireAccounting(db: Db, id: nat, now: int, slotId: nat)
    requires WellFormed(db) && id < |db.bookings| && slotId < |db.slots|
    ensures var after := ExpireDb(db, SelectStale(db.bookings, id), now);
            |after.slots| == |db.slots| && Gap(after, slotId) == Gap(db, slotId)
  {
    var after := ExpireDb(db, SelectStale(db.bookings, id), now);
    assert BookingWellFormed(db, db.bookings[id]);
    if after != db {
      ActiveSumUpdate(db.bookings, id, after.bookings[id], slotId);
    }
  }

  predicate WithinCapacity(db: Db) {
    forall s :: 0 <= s < |db.slots| ==> 0 <= db.slots[s].reserved <= db.slots[s].capacity
  }

  lemma CommitWithinCapacity(db: Db, p: Pending, reference: string)
    requires PendingOk(db, p) && WellFormed(db) && WithinCapacity(db) && Commit(db, p, reference).Ok?
    ensures WithinCapacity(Commit(db, p, reference).value)
  {
  }

  lemma ExpireWithinCapacity(db: Db, id: nat, now: int)
    requires WellFormed(db) && id < |db.bookings| && WithinCapacity(db)
    ensures WithinCapacity(ExpireDb(db, SelectStale(db.bookings, id), now))
  {
  }

  // ---------- when a transaction succeeds ----------

  /** The slot counts at least the seats its active bookings hold. */
  predicate SlotCovered(db: Db, slotId: nat) {
    slotId < |db.slots| && Gap(db, slotId) <= 0
  }

  /** So does every slot. */
  predicate Covered(db: Db) {
    forall s :: 0 <= s < |db.slots| ==> Gap(db, s) <= 0
  }

  lemma ReservedCovers(db: Db, b: nat)
    requires WellFormed(db) && b < |db.bookings| && IsActive(db.bookings[b])
    requires SlotCovered(db, db.bookings[b].slotId)
    ensures db.bookings[b].partySize <= db.slots[db.bookings[b].slotId].reserved
  {
    forall k | 0 <= k < |db.bookings| ensures db.bookings[k].partySize >= 0 {
      assert BookingWellFormed(db, db.bookings[k]);
    }
    ActiveSumAtLeast(db.bookings, b, db.bookings[b].slotId);
  }

  /** On a covered slot, a waiting change succeeds exactly if the version it read is still current (and, for a
      create, the generated reference is new). */
  lemma CommitSucceedsIff(db: Db, p: Pending, reference: string)
    requires WellFormed(db) && PendingOk(db, p) && !p.PendingConfirm? && SlotCovered(db, p.slotId)
    ensures Commit(db, p, reference).Ok?
       <==> p.version == db.slots[p.slotId].version && (p.PendingCreate? ==> !ReferenceTaken(db.bookings, reference))
  {
    if p.PendingCancel? {
      assert BookingWellFormed(db, db.bookings[p.bookingId]);
      if p.version == db.slots[p.slotId].version { ReservedCovers(db, p.bookingId); }
    }
  }

  /** On a covered slot, expiring an overdue booking always succeeds. */
  lemma ExpireSucceeds(db: Db, id: nat, now: int)
    requires WellFormed(db) && id < |db.bookings| && IsOverdue(db.bookings[id], now)
    requires SlotCovered(db, db.bookings[id].slotId)
    ensures ExpireTx(db, SelectStale(db.bookings, id), now).Ok?
    ensures ExpireTx(db, SelectStale(db.bookings, id), now).value.Some?
  {
    assert BookingWellFormed(db, db.bookings[id]);
    ReservedCovers(db, id);
  }
}
