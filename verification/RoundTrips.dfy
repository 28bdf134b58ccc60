/**
  What requests mean for each other, one at a time: what a created booking looks
  like to its owner, what cancelling takes back, and when confirming or expiring is
  possible.
 */
module RoundTrips {
  import opened Wrappers
  import opened BookingState
  import opened Tables
  import opened Transactions
  import opened Evolution
  import opened Refinement

  // ---------- the slot update ----------

  /** The UPDATE succeeds exactly on the tenant's slot at the expected version, if the seats taken stay within the
      capacity (for more) or above zero (for fewer); it then changes that row's seats and version and nothing else. */
  lemma AdjustSlotMeans(slots: seq<Slot>, slotId: nat, tenantId: string, delta: int, expectedVersion: int)
    ensures var r := AdjustSlot(slots, slotId, tenantId, delta, expectedVersion);
            && (r.Ok? <==> && slotId < |slots| && slots[slotId].tenantId == tenantId
                           && slots[slotId].version == expectedVersion
                           && (delta > 0 ==> slots[slotId].reserved + delta <= slots[slotId].capacity)
                           && (delta <= 0 ==> slots[slotId].reserved + delta >= 0))
            && (r.Ok? ==> var slot := slots[slotId];
                          r.value == slots[slotId := slot.(reserved := slot.reserved + delta,
                                                           version := slot.version + 1)])
            && (r.Err? ==> r.error.Conflict?)
  {
  }

  // ---------- when requests succeed, and how they fail ----------

  /** A create succeeds exactly if the experience is bookable, the party fits, and the reference is new. */
  lemma CreateSucceedsIff(db: Db, op: Op)
    requires op.OpCreate? && op.partySize >= 1
    ensures Whole(db, op).Ok?
       <==> && op.slotId < |db.slots|
            && db.slots[op.slotId].tenantId == op.tenantId
            && db.slots[op.slotId].experienceId in db.activeExperiences
            && op.partySize <= Spots(db.slots[op.slotId])
            && !ReferenceTaken(db.bookings, op.reference)
  {
  }

  /** A create that fails says why: the slot is not there to book, the reference is taken, or the party does not fit. */
  lemma CreateFailsBecause(db: Db, op: Op)
    requires op.OpCreate? && op.partySize >= 1 && Whole(db, op).Err?
    ensures var bookable := op.slotId < |db.slots| && db.slots[op.slotId].tenantId == op.tenantId
                            && db.slots[op.slotId].experienceId in db.activeExperiences;
            if !bookable then Whole(db, op) == Err(NotFound)
            else if db.slots[op.slotId].capacity - db.slots[op.slotId].reserved < op.partySize
            then Whole(db, op).error.Conflict?
            else Whole(db, op) == Err(UniqueViolation)
  {
  }

  /** A confirm needs an owned booking that is RESERVED with a hold that has not lapsed, or none. */
  lemma ConfirmSucceedsIff(db: Db, op: Op, id: nat)
    requires WellFormed(db) && op.OpConfirm?
    requires id < |db.bookings| && Owned(db.bookings[id], op.tenantId, op.userId, op.reference)
    ensures var b := db.bookings[id];
            if b.status == RESERVED && (b.reservedUntil == None || op.readAt <= b.reservedUntil.value)
            then Whole(db, op).Ok? else Whole(db, op).Err? && Whole(db, op).error.Conflict?
  {
    FindOwnedUnique(db.bookings, id, op.tenantId, op.userId, op.reference);
    AllowedMoves(Some(db.bookings[id].status), CONFIRMED);
  }

  /** Confirming and cancelling what one does not own is not found. */
  lemma NotOwnedIsNotFound(db: Db, op: Op)
    requires op.OpConfirm? || op.OpCancel?
    requires forall k :: 0 <= k < |db.bookings| ==> !Owned(db.bookings[k], op.tenantId, op.userId, op.reference)
    ensures Whole(db, op) == Err(NotFound)
  {
  }

  // ---------- what they do ----------

  /** A confirm changes one booking's status and hold, takes no seats, and is on record. */
  lemma ConfirmDoes(db: Db, op: Op, id: nat)
    requires WellFormed(db) && op.OpConfirm? && Whole(db, op).Ok?
    requires id < |db.bookings| && Owned(db.bookings[id], op.tenantId, op.userId, op.reference)
    ensures var after := Whole(db, op).value;
            && after.slots == db.slots
            && after.bookings == db.bookings[id := db.bookings[id].(status := CONFIRMED, reservedUntil := None)]
            && after.history == db.history + [HistoryRow(id, Some(RESERVED), CONFIRMED, Some(op.userId), None)]
            && after.audit == db.audit
                 + [AuditRow(BOOKING_CONFIRMED, op.tenantId, Some(op.userId), id, op.reference, Some(RESERVED))]
  {
    FindOwnedUnique(db.bookings, id, op.tenantId, op.userId, op.reference);
    AllowedMoves(Some(db.bookings[id].status), CONFIRMED);
  }

  /** An expiry releases the booking's seats, clears its hold, and is on record with no actor. */
  lemma ExpireDoes(db: Db, id: nat, now: int)
    requires WellFormed(db) && id < |db.bookings| && SlotCovered(db, db.bookings[id].slotId)
    requires db.bookings[id].status == RESERVED
    requires db.bookings[id].reservedUntil.Some? && db.bookings[id].reservedUntil.value < now
    ensures var b := db.bookings[id];
            var slot := db.slots[b.slotId];
            Whole(db, OpExpire(id, now)) == Ok(Db(
              db.activeExperiences,
              db.slots[b.slotId := slot.(reserved := slot.reserved - b.partySize, version := slot.version + 1)],
              db.bookings[id := b.(status := EXPIRED, reservedUntil := None)],
              db.history + [HistoryRow(id, Some(RESERVED), EXPIRED, None, Some("Reservation hold expired"))],
              db.audit + [AuditRow(BOOKING_EXPIRED, b.tenantId, None, id, b.reference, Some(RESERVED))]))
  {
    assert BookingWellFormed(db, db.bookings[id]);
    ExpireSucceeds(db, id, now);
  }

  /** Its owner finds the booking with the values asked for; it took exactly the party's seats from that slot. */
  lemma CreateThenFind(db: Db, op: Op)
    requires WellFormed(db) && op.OpCreate? && op.partySize >= 1 && Whole(db, op).Ok?
    ensures var after := Whole(db, op).value;
            var found := FindOwned(after.bookings, op.tenantId, op.userId, op.reference);
            && WellFormed(after)
            && found == Some(|db.bookings|) && after.bookings[..|db.bookings|] == db.bookings
            && var b := after.bookings[found.value];
            && b.status == RESERVED && b.reservedUntil == Some(op.reservedUntil)
            && b.slotId == op.slotId && b.experienceId == db.slots[op.slotId].experienceId
            && b.partySize == op.partySize && b.totalPrice == op.totalPrice
            && Spots(after.slots[op.slotId]) == Spots(db.slots[op.slotId]) - op.partySize
            && forall s :: 0 <= s < |db.slots| && s != op.slotId ==> after.slots[s] == db.slots[s]
  {
    var after := Whole(db, op).value;
    ReadEstablishes(db, op);
    CommitEvolves(db, ReadPhase(db, op).value, op.reference);
    FindOwnedUnique(after.bookings, |db.bookings|, op.tenantId, op.userId, op.reference);
  }

  /** Cancelling right away gives back what the create took: only the version shows that anything happened. */
  lemma CreateThenCancel(db: Db, op: Op, reason: string)
    requires WellFormed(db) && op.OpCreate? && op.partySize >= 1 && Whole(db, op).Ok?
    requires db.slots[op.slotId].reserved >= 0
    ensures var cancelled := Whole(Whole(db, op).value, OpCancel(op.tenantId, op.userId, op.reference, reason));
            var slot := db.slots[op.slotId];
            && cancelled.Ok?
            && cancelled.value.slots == db.slots[op.slotId := slot.(version := slot.version + 2)]
            && cancelled.value.bookings[..|db.bookings|] == db.bookings
            && |cancelled.value.bookings| == |db.bookings| + 1
            && cancelled.value.bookings[|db.bookings|].status == CANCELLED
  {
    CreateThenFind(db, op);
    CancelDoes(Whole(db, op).value, OpCancel(op.tenantId, op.userId, op.reference, reason), |db.bookings|);
  }

  /** What the pair leaves on record: two history rows and two audit rows, naming who did it and why. */
  lemma CreateThenCancelRecords(db: Db, op: Op, reason: string)
    requires WellFormed(db) && op.OpCreate? && op.partySize >= 1 && Whole(db, op).Ok?
    requires db.slots[op.slotId].reserved >= 0
    ensures var cancelled := Whole(Whole(db, op).value, OpCancel(op.tenantId, op.userId, op.reference, reason));
            var id := |db.bookings|;
            && cancelled.Ok?
            && cancelled.value.history == db.history
                 + [HistoryRow(id, None, RESERVED, Some(op.userId), None)]
                 + [HistoryRow(id, Some(RESERVED), CANCELLED, Some(op.userId), Some(reason))]
            && cancelled.value.audit == db.audit
                 + [AuditRow(BOOKING_RESERVED, op.tenantId, Some(op.userId), id, op.reference, None)]
                 + [AuditRow(BOOKING_CANCELLED, op.tenantId, Some(op.userId), id, op.reference, Some(RESERVED))]
  {
    CreateThenFind(db, op);
    CancelDoes(Whole(db, op).value, OpCancel(op.tenantId, op.userId, op.reference, reason), |db.bookings|);
  }

  /** Whole cancels succeed exactly on the owner's active bookings that the slot still counts. */
  lemma CancelSucceedsIff(db: Db, op: Op, id: nat)
    requires WellFormed(db) && op.OpCancel?
    requires id < |db.bookings| && Owned(db.bookings[id], op.tenantId, op.userId, op.reference)
    ensures Whole(db, op).Ok?
       <==> IsActive(db.bookings[id]) && db.slots[db.bookings[id].slotId].reserved >= db.bookings[id].partySize
  {
    FindOwnedUnique(db.bookings, id, op.tenantId, op.userId, op.reference);
    assert BookingWellFormed(db, db.bookings[id]);
    CancellableMeansTransition(db.bookings[id].status);
  }

  /** At any time a held booking can be confirmed or expired, never both and never neither. */
  lemma ConfirmXorExpire(db: Db, id: nat, now: int)
    requires WellFormed(db) && id < |db.bookings| && SlotCovered(db, db.bookings[id].slotId)
    requires db.bookings[id].status == RESERVED && db.bookings[id].reservedUntil.Some?
    ensures var b := db.bookings[id];
            var confirm := Whole(db, OpConfirm(b.tenantId, b.userId, b.reference, now));
            var expire := Whole(db, OpExpire(id, now));
            && expire.Ok?
            && (confirm.Ok? <==> now <= b.reservedUntil.value)
            && (expire.value != db <==> now > b.reservedUntil.value)
            && (confirm.Ok? ==> confirm.value.bookings[id].status == CONFIRMED && confirm.value.slots == db.slots)
            && (expire.value != db ==> expire.value.bookings[id].status == EXPIRED)
  {
    var b := db.bookings[id];
    FindOwnedUnique(db.bookings, id, b.tenantId, b.userId, b.reference);
    if IsOverdue(b, now) {
      ExpireSucceeds(db, id, now);
      var after := ExpireDb(db, SelectStale(db.bookings, id), now);
      assert after.bookings[id].status == EXPIRED;
    }
  }
}
