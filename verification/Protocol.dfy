/**
  Any number of requests in flight against one database: each reads, waits with
  what it read, and later commits or aborts, while the expiry worker runs and the
  clock advances.  One step is one read phase, one transaction, or a tick.
 */
module Protocol {
  import opened Wrappers
  import opened BookingState
  import opened Tables
  import opened Transactions
  import opened Evolution

  /** `late[s]` totals the seats that late confirms put back on slot s; the service keeps no such number. */
  datatype State = State(db: Db, now: int, ttl: nat, pending: map<nat, Pending>, late: seq<int>)

  datatype Step =
    | ReadForCreate(rid: nat, tenantId: string, userId: string, slotId: nat, partySize: int, totalPrice: int)
    | ReadForConfirm(rid: nat, tenantId: string, userId: string, reference: string)
    | ReadForCancel(rid: nat, tenantId: string, userId: string, reference: string, reason: string)
    | CommitStep(rid: nat, newReference: string)
    | AbortStep(rid: nat)
    | ExpireStep(bookingId: nat)
    | Tick(elapsed: nat)

  predicate Enabled(s: State, step: Step) {
    match step
    case ReadForCreate(rid, _, _, _, partySize, _) => rid !in s.pending && partySize >= 1
    case ReadForConfirm(rid, _, _, _) => rid !in s.pending
    case ReadForCancel(rid, _, _, _, _) => rid !in s.pending
    case CommitStep(rid, _) => rid in s.pending
    case AbortStep(rid) => rid in s.pending
    case ExpireStep(id) => id < |s.db.bookings|
    case Tick(_) => true
  }

  /** A failed read ends its request; a successful one leaves it waiting. */
  function AfterRead(s: State, rid: nat, r: Result<Pending>): State {
    match r
    case Ok(p) => s.(pending := s.pending[rid := p])
    case Err(_) => s
  }

  function AddLate(late: seq<int>, db: Db, p: Pending): seq<int> {
    if IsLate(db, p) && db.bookings[p.bookingId].slotId < |late| then
      var slotId := db.bookings[p.bookingId].slotId;
      late[slotId := late[slotId] + db.bookings[p.bookingId].partySize]
    else late
  }

  /** The transaction either commits as a whole or leaves the database alone; the request is over. */
  function AfterCommit(s: State, rid: nat, newReference: string): State
    requires rid in s.pending
  {
    var p := s.pending[rid];
    var waiting := s.pending - {rid};
    match Commit(s.db, p, newReference)
    case Ok(after) => s.(db := after, pending := waiting, late := AddLate(s.late, s.db, p))
    case Err(_) => s.(pending := waiting)
  }

  function Next(s: State, step: Step): State
    requires Enabled(s, step)
  {
    match step
    case ReadForCreate(rid, tenantId, userId, slotId, partySize, totalPrice) =>
      AfterRead(s, rid, ReadCreate(s.db, s.now, s.ttl, tenantId, userId, slotId, partySize, totalPrice))
    case ReadForConfirm(rid, tenantId, userId, reference) =>
      AfterRead(s, rid, ReadConfirm(s.db, s.now, tenantId, userId, reference))
    case ReadForCancel(rid, tenantId, userId, reference, reason) =>
      AfterRead(s, rid, ReadCancel(s.db, tenantId, userId, reference, reason))
    case CommitStep(rid, newReference) => AfterCommit(s, rid, newReference)
    case AbortStep(rid) => s.(pending := s.pending - {rid})
    case ExpireStep(id) => s.(db := ExpireDb(s.db, SelectStale(s.db.bookings, id), s.now))
    case Tick(elapsed) => s.(now := s.now + elapsed)
  }

  // ---------- the invariant of every reachable state ----------

  predicate Inv(s: State) {
    && WellFormed(s.db)
    && |s.late| == |s.db.slots|
    && (forall rid :: rid in s.pending ==> PendingOk(s.db, s.pending[rid]))
  }

  /** A service just started on some database: nothing in flight, no late confirm yet. */
  predicate Start(s: State) {
    && WellFormed(s.db)
    && s.pending == map[]
    && s.late == seq(|s.db.slots|, _ => 0)
  }

  lemma PendingsStable(s: State, s': State)
    requires Evolves(s.db, s'.db)
    requires forall rid :: rid in s.pending ==> PendingOk(s.db, s.pending[rid])
    requires forall rid :: rid in s'.pending ==> rid in s.pending && s'.pending[rid] == s.pending[rid]
    ensures forall rid :: rid in s'.pending ==> PendingOk(s'.db, s'.pending[rid])
  {
    forall rid | rid in s'.pending
      ensures PendingOk(s'.db, s'.pending[rid])
    {
      PendingStable(s.db, s'.db, s.pending[rid]);
    }
  }

  lemma ReadInvariant(s: State, rid: nat, r: Result<Pending>)
    requires Inv(s) && (r.Ok? ==> PendingOk(s.db, r.value))
    ensures Inv(AfterRead(s, rid, r)) && Evolves(s.db, AfterRead(s, rid, r).db)
  {
  }

  lemma CommitInvariant(s: State, rid: nat, newReference: string)
    requires Inv(s) && rid in s.pending
    ensures Inv(AfterCommit(s, rid, newReference)) && Evolves(s.db, AfterCommit(s, rid, newReference).db)
  {
    if Commit(s.db, s.pending[rid], newReference).Ok? { CommitEvolves(s.db, s.pending[rid], newReference); }
    PendingsStable(s, AfterCommit(s, rid, newReference));
  }

  lemma ExpireInvariant(s: State, id: nat)
    requires Inv(s) && id < |s.db.bookings|
    ensures Inv(Next(s, ExpireStep(id))) && Evolves(s.db, Next(s, ExpireStep(id)).db)
  {
    ExpireEvolves(s.db, id, s.now);
    PendingsStable(s, Next(s, ExpireStep(id)));
  }

  lemma StepInvariant(s: State, step: Step)
    requires Inv(s) && Enabled(s, step)
    ensures Inv(Next(s, step)) && Evolves(s.db, Next(s, step).db)
  {
    match step
    case ReadForCreate(rid, tenantId, userId, slotId, partySize, totalPrice) =>
      ReadEstablishes(s.db, OpCreate(tenantId, userId, slotId, partySize, totalPrice, s.now + s.ttl, ""));
      ReadInvariant(s, rid, ReadCreate(s.db, s.now, s.ttl, tenantId, userId, slotId, partySize, totalPrice));
    case ReadForConfirm(rid, tenantId, userId, reference) =>
      ReadEstablishes(s.db, OpConfirm(tenantId, userId, reference, s.now));
      ReadInvariant(s, rid, ReadConfirm(s.db, s.now, tenantId, userId, reference));
    case ReadForCancel(rid, tenantId, userId, reference, reason) =>
      ReadEstablishes(s.db, OpCancel(tenantId, userId, reference, reason));
      ReadInvariant(s, rid, ReadCancel(s.db, tenantId, userId, reference, reason));
    case CommitStep(rid, newReference) => CommitInvariant(s, rid, newReference);
    case ExpireStep(id) => ExpireInvariant(s, id);
    case AbortStep(_) =>
    case Tick(_) =>
  }

  // ---------- what a step does to the books ----------

  predicate CommitsNow(s: State, step: Step) {
    step.CommitStep? && step.rid in s.pending && Commit(s.db, s.pending[step.rid], step.newReference).Ok?
  }

  predicate LateConfirm(s: State, step: Step) {
    CommitsNow(s, step) && IsLate(s.db, s.pending[step.rid])
  }

  /** The slot a late confirm lands on. */
  predicate LateConfirmOn(s: State, step: Step, slotId: nat) {
    LateConfirm(s, step) && s.db.bookings[s.pending[step.rid].bookingId].slotId == slotId
  }

  lemma StepAccounting(s: State, step: Step, slotId: nat)
    requires Inv(s) && Enabled(s, step) && slotId < |s.db.slots|
    ensures var s' := Next(s, step);
            && |s'.db.slots| == |s.db.slots| && |s'.late| == |s.late|
            && Gap(s'.db, slotId) - s'.late[slotId] == Gap(s.db, slotId) - s.late[slotId]
    ensures if LateConfirmOn(s, step, slotId) then Next(s, step).late[slotId] > s.late[slotId]
            else Next(s, step).late[slotId] == s.late[slotId]
  {
    match step
    case CommitStep(rid, newReference) =>
      var p := s.pending[rid];
      if Commit(s.db, p, newReference).Ok? {
        CommitAccounting(s.db, p, newReference, slotId);
        if p.PendingConfirm? { assert BookingWellFormed(s.db, s.db.bookings[p.bookingId]); }
      }
    case ExpireStep(id) => ExpireAccounting(s.db, id, s.now, slotId);
    case _ =>
  }

  lemma StepWithinCapacity(s: State, step: Step)
    requires Inv(s) && Enabled(s, step) && WithinCapacity(s.db)
    ensures WithinCapacity(Next(s, step).db)
  {
    match step
    case CommitStep(rid, newReference) =>
      if CommitsNow(s, step) { CommitWithinCapacity(s.db, s.pending[rid], newReference); }
    case ExpireStep(id) => ExpireWithinCapacity(s.db, id, s.now);
    case _ =>
  }
}
