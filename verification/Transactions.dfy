/**
  What each read phase returns and what each transaction does to the database
  (src/services/booking.service.ts).  A failing transaction returns an error and
  no database: it is rolled back.
 */
module Transactions {
  import opened Wrappers
  import opened BookingState
  import opened Tables

  /** A request between its read and its transaction, with the values it remembered. */
  datatype Pending =
    | PendingCreate(
        tenantId: string, userId: string, slotId: nat, experienceId: nat, partySize: int,
        totalPrice: int, version: int, reservedUntil: int)
    | PendingConfirm(
        tenantId: string, userId: string, bookingId: nat, reference: string, fromStatus: Status, readAt: int)
    | PendingCancel(
        tenantId: string, userId: string, bookingId: nat, reference: string, fromStatus: Status,
        slotId: nat, partySize: int, version: int, reason: string)

  // ---------- slots ----------

  predicate SlotMatches(slots: seq<Slot>, slotId: nat, tenantId: string, expectedVersion: int) {
    slotId < |slots| && slots[slotId].tenantId == tenantId && slots[slotId].version == expectedVersion
  }

  function Bump(slot: Slot, delta: int): Slot {
    slot.(reserved := slot.reserved + delta, version := slot.version + 1)
  }

  /** The guarded UPDATE on a slot: zero affected rows is a conflict. */
  function AdjustSlot(slots: seq<Slot>, slotId: nat, tenantId: string, delta: int, expectedVersion: int)
    : Result<seq<Slot>>
  {
    if delta > 0 then
      if SlotMatches(slots, slotId, tenantId, expectedVersion) && Spots(slots[slotId]) >= delta
      then Ok(slots[slotId := Bump(slots[slotId], delta)])
      else Err(Conflict("Slot no longer available"))
    else
      if SlotMatches(slots, slotId, tenantId, expectedVersion) && slots[slotId].reserved >= -delta
      then Ok(slots[slotId := Bump(slots[slotId], delta)])
      else Err(Conflict("Failed to release slot reservation"))
  }

  // ---------- records ----------

  function EventFor(to: Status): EventType {
    match to
    case RESERVED => BOOKING_RESERVED
    case CONFIRMED => BOOKING_CONFIRMED
    case CANCELLED => BOOKING_CANCELLED
    case EXPIRED => BOOKING_EXPIRED
  }

  /** Store `b` in row `bookingId`, add its history row, and log the change in the same transaction. */
  function Record(db: Db, slots: seq<Slot>, bookings: seq<Booking>, row: HistoryRow, audit: AuditRow): Db {
    Db(db.activeExperiences, slots, bookings, db.history + [row], db.audit + [audit])
  }

  function Move(db: Db, slots: seq<Slot>, bookingId: nat, from: Status, to: Status,
                tenantId: string, reference: string, actor: Option<string>, reason: Option<string>): Db
    requires bookingId < |db.bookings|
  {
    Record(
      db, slots,
      db.bookings[bookingId := db.bookings[bookingId].(status := to, reservedUntil := None)],
      HistoryRow(bookingId, Some(from), to, actor, reason),
      AuditRow(EventFor(to), tenantId, actor, bookingId, reference, Some(from)))
  }

  // ---------- create ----------

  function ReadCreate(db: Db, now: int, ttl: nat, tenantId: string, userId: string, slotId: nat,
                      partySize: int, totalPrice: int): Result<Pending>
  {
    if slotId >= |db.slots| || db.slots[slotId].tenantId != tenantId
       || db.slots[slotId].experienceId !in db.activeExperiences then
      Err(NotFound)
    else if Spots(db.slots[slotId]) < partySize then
      Err(Conflict("Slot no longer available"))
    else
      var slot := db.slots[slotId];
      Ok(PendingCreate(tenantId, userId, slotId, slot.experienceId, partySize, totalPrice, slot.version, now + ttl))
  }

  function CommitCreate(db: Db, p: Pending, reference: string): Result<Db>
    requires p.PendingCreate?
  {
    match AdjustSlot(db.slots, p.slotId, p.tenantId, p.partySize, p.version)
    case Err(e) => Err(e)
    case Ok(slots) =>
      if ReferenceTaken(db.bookings, reference) then Err(UniqueViolation)
      else
        var id := |db.bookings|;
        Ok(Record(
          db, slots,
          db.bookings + [Booking(reference, p.tenantId, p.userId, p.experienceId, p.slotId, p.partySize,
                                 p.totalPrice, RESERVED, Some(p.reservedUntil))],
          HistoryRow(id, None, RESERVED, Some(p.userId), None),
          AuditRow(BOOKING_RESERVED, p.tenantId, Some(p.userId), id, reference, None)))
  }

  // ---------- confirm ----------

  predicate HoldLapsed(reservedUntil: Option<int>, now: int) {
    reservedUntil.Some? && reservedUntil.value < now
  }

  function ReadConfirm(db: Db, now: int, tenantId: string, userId: string, reference: string): Result<Pending> {
    match FindOwned(db.bookings, tenantId, userId, reference)
    case None => Err(NotFound)
    case Some(id) =>
      var b := db.bookings[id];
      match AssertTransition(Some(b.status), CONFIRMED)
      case Err(e) => Err(e)
      case Ok(_) =>
        if HoldLapsed(b.reservedUntil, now) then Err(Conflict("Reservation hold has expired"))
        else Ok(PendingConfirm(tenantId, userId, id, reference, b.status, now))
  }

  /** Writes by id alone: no status or version guard. */
  function CommitConfirm(db: Db, p: Pending): Result<Db>
    requires p.PendingConfirm?
  {
    if p.bookingId >= |db.bookings| then Err(NotFound)
    else Ok(Move(db, db.slots, p.bookingId, p.fromStatus, CONFIRMED, p.tenantId, p.reference, Some(p.userId), None))
  }

  // ---------- cancel ----------

  /** The booking and its slot's version are read as one snapshot. */
  function ReadCancel(db: Db, tenantId: string, userId: string, reference: string, reason: string): Result<Pending> {
    match FindOwned(db.bookings, tenantId, userId, reference)
    case None => Err(NotFound)
    case Some(id) =>
      var b := db.bookings[id];
      if b.slotId >= |db.slots| then Err(NotFound)
      else if !IsCancellable(b.status) then Err(Conflict("Cannot cancel booking"))
      else
        match AssertTransition(Some(b.status), CANCELLED)
        case Err(e) => Err(e)
        case Ok(_) =>
          Ok(PendingCancel(tenantId, userId, id, reference, b.status, b.slotId, b.partySize,
                           db.slots[b.slotId].version, reason))
  }

  function CommitCancel(db: Db, p: Pending): Result<Db>
    requires p.PendingCancel?
  {
    match AdjustSlot(db.slots, p.slotId, p.tenantId, -p.partySize, p.version)
    case Err(e) => Err(e)
    case Ok(slots) =>
      if p.bookingId >= |db.bookings| then Err(NotFound)
      else Ok(Move(db, slots, p.bookingId, p.fromStatus, CANCELLED, p.tenantId, p.reference,
                   Some(p.userId), Some(p.reason)))
  }

  function Commit(db: Db, p: Pending, reference: string): Result<Db> {
    match p
    case PendingCreate(_, _, _, _, _, _, _, _) => CommitCreate(db, p, reference)
    case PendingConfirm(_, _, _, _, _, _) => CommitConfirm(db, p)
    case PendingCancel(_, _, _, _, _, _, _, _, _) => CommitCancel(db, p)
  }

  // ---------- expiry ----------

  /** The columns the expiry query selects. */
  datatype StaleRow = StaleRow(id: nat, tenantId: string, slotId: nat, partySize: int, reference: string)

  predicate IsOverdue(b: Booking, now: int) {
    b.status == RESERVED && HoldLapsed(b.reservedUntil, now)
  }

  function SelectStale(bookings: seq<Booking>, id: nat): StaleRow
    requires id < |bookings|
  {
    var b := bookings[id];
    StaleRow(id, b.tenantId, b.slotId, b.partySize, b.reference)
  }

  /** Ok(None): the row was no longer claimable, nothing happened. */
  function ExpireTx(db: Db, row: StaleRow, now: int): Result<Option<Db>> {
    if row.id >= |db.bookings| || !IsOverdue(db.bookings[row.id], now) then Ok(None)
    else if row.slotId >= |db.slots| || db.slots[row.slotId].tenantId != row.tenantId then
      Err(Conflict("Slot not found while expiring reservation"))
    else
      match AdjustSlot(db.slots, row.slotId, row.tenantId, -row.partySize, db.slots[row.slotId].version)
      case Err(e) => Err(e)
      case Ok(slots) =>
        Ok(Some(Move(db, slots, row.id, RESERVED, EXPIRED, row.tenantId, row.reference,
                     None, Some("Reservation hold expired"))))
  }

  function ExpireDb(db: Db, row: StaleRow, now: int): Db {
    match ExpireTx(db, row, now)
    case Ok(Some(after)) => after
    case _ => db
  }

  // ---------- one request at a time ----------

  datatype Op =
    | OpCreate(tenantId: string, userId: string, slotId: nat, partySize: int, totalPrice: int,
               reservedUntil: int, reference: string)
    | OpConfirm(tenantId: string, userId: string, reference: string, readAt: int)
    | OpCancel(tenantId: string, userId: string, reference: string, reason: string)
    | OpExpire(id: nat, at: int)

  function ReadPhase(db: Db, op: Op): Result<Pending>
    requires !op.OpExpire?
  {
    match op
    case OpCreate(tenantId, userId, slotId, partySize, totalPrice, reservedUntil, _) =>
      ReadCreate(db, reservedUntil, 0, tenantId, userId, slotId, partySize, totalPrice)
    case OpConfirm(tenantId, userId, reference, readAt) => ReadConfirm(db, readAt, tenantId, userId, reference)
    case OpCancel(tenantId, userId, reference, reason) => ReadCancel(db, tenantId, userId, reference, reason)
  }

  /** A whole request with nothing in between: its read phase, then its transaction. */
  function Whole(db: Db, op: Op): Result<Db> {
    match op
    case OpExpire(id, at) =>
      if id >= |db.bookings| then Err(NotFound)
      else
        (match ExpireTx(db, SelectStale(db.bookings, id), at)
         case Ok(Some(after)) => Ok(after)
         case Ok(None) => Ok(db)
         case Err(e) => Err(e))
    case _ =>
      match ReadPhase(db, op)
      case Err(e) => Err(e)
      case Ok(p) => Commit(db, p, op.reference)
  }
}
