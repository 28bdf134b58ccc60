/**
  The interleaved protocol refines a service that handles one request at a time:
  every transaction has, on slots and bookings, the effect of running its whole
  request at its commit point.
 */
module Refinement {
  import opened Wrappers
  import opened BookingState
  import opened Tables
  import opened Transactions
  import opened Evolution
  import opened Protocol
  import opened Runs

  /** What the refinement speaks about: slots and bookings, not the records kept of the changes. */
  function Core(db: Db): Db {
    db.(history := [], audit := [])
  }

  /** The request that takes effect in a step, with the clock and price it read as inputs. */
  function OpOf(s: State, step: Step): Option<Op> {
    if step.ExpireStep? && step.bookingId < |s.db.bookings| then
      if ExpireTx(s.db, SelectStale(s.db.bookings, step.bookingId), s.now) == Ok(None)
         || ExpireTx(s.db, SelectStale(s.db.bookings, step.bookingId), s.now).Err?
      then None
      else Some(OpExpire(step.bookingId, s.now))
    else if CommitsNow(s, step) then
      match s.pending[step.rid]
      case PendingCreate(tenantId, userId, slotId, _, partySize, totalPrice, _, reservedUntil) =>
        Some(OpCreate(tenantId, userId, slotId, partySize, totalPrice, reservedUntil, step.newReference))
      case PendingConfirm(tenantId, userId, bookingId, reference, _, readAt) =>
        // A second confirm of the same booking changes nothing.
        if bookingId < |s.db.bookings| && s.db.bookings[bookingId].status == RESERVED
        then Some(OpConfirm(tenantId, userId, reference, readAt)) else None
      case PendingCancel(tenantId, userId, _, reference, _, _, _, _, reason) =>
        Some(OpCancel(tenantId, userId, reference, reason))
    else None
  }

  lemma FindOwnedUnique(bookings: seq<Booking>, i: nat, tenantId: string, userId: string, reference: string)
    requires UniqueReferences(bookings) && i < |bookings| && Owned(bookings[i], tenantId, userId, reference)
    ensures FindOwned(bookings, tenantId, userId, reference) == Some(i)
  {
  }

  /** What a whole cancel of an owned, active booking does. */
  lemma CancelDoes(db: Db, op: Op, id: nat)
    requires WellFormed(db) && op.OpCancel?
    requires id < |db.bookings| && Owned(db.bookings[id], op.tenantId, op.userId, op.reference)
    requires IsActive(db.bookings[id])
    requires db.slots[db.bookings[id].slotId].reserved >= db.bookings[id].partySize
    ensures var b := db.bookings[id];
            var slots := db.slots[b.slotId := Bump(db.slots[b.slotId], -b.partySize)];
            Whole(db, op) == Ok(Move(db, slots, id, b.status, CANCELLED, op.tenantId, op.reference,
                                     Some(op.userId), Some(op.reason)))
  {
    FindOwnedUnique(db.bookings, id, op.tenantId, op.userId, op.reference);
    assert BookingWellFormed(db, db.bookings[id]);
    CancellableMeansTransition(db.bookings[id].status);
  }

  lemma CreateRefines(s: State, step: Step)
    requires Inv(s) && CommitsNow(s, step) && s.pending[step.rid].PendingCreate?
    ensures OpOf(s, step).Some?
    ensures Whole(s.db, OpOf(s, step).value) == Commit(s.db, s.pending[step.rid], step.newReference)
  {
    assert PendingOk(s.db, s.pending[step.rid]);
  }

  lemma CancelRefines(s: State, step: Step)
    requires Inv(s) && CommitsNow(s, step) && s.pending[step.rid].PendingCancel?
    ensures OpOf(s, step).Some? && Whole(s.db, OpOf(s, step).value).Ok?
    ensures Core(Whole(s.db, OpOf(s, step).value).value)
         == Core(Commit(s.db, s.pending[step.rid], step.newReference).value)
  {
    var p := s.pending[step.rid];
    assert PendingOk(s.db, p);
    CancelDoes(s.db, OpCancel(p.tenantId, p.userId, p.reference, p.reason), p.bookingId);
  }

  lemma ConfirmRefines(s: State, step: Step)
    requires Inv(s) && CommitsNow(s, step) && s.pending[step.rid].PendingConfirm? && !LateConfirm(s, step)
    ensures var after := Commit(s.db, s.pending[step.rid], step.newReference).value;
            match OpOf(s, step)
            case None => Core(after) == Core(s.db)
            case Some(op) => Whole(s.db, op).Ok? && Core(Whole(s.db, op).value) == Core(after)
  {
    var p := s.pending[step.rid];
    assert PendingOk(s.db, p);
    FindOwnedUnique(s.db.bookings, p.bookingId, p.tenantId, p.userId, p.reference);
    if s.db.bookings[p.bookingId].status == CONFIRMED {
      assert Commit(s.db, p, step.newReference).value.bookings == s.db.bookings;
    }
  }

  /** Run at its commit point, a waiting request that commits would commit all the same. */
  lemma CommitRefines(s: State, step: Step)
    requires Inv(s) && CommitsNow(s, step) && !LateConfirm(s, step)
    ensures var after := Commit(s.db, s.pending[step.rid], step.newReference).value;
            match OpOf(s, step)
            case None => Core(after) == Core(s.db)
            case Some(op) => Whole(s.db, op).Ok? && Core(Whole(s.db, op).value) == Core(after)
  {
    match s.pending[step.rid]
    case PendingCreate(_, _, _, _, _, _, _, _) => CreateRefines(s, step);
    case PendingConfirm(_, _, _, _, _, _) => ConfirmRefines(s, step);
    case PendingCancel(_, _, _, _, _, _, _, _, _) => CancelRefines(s, step);
  }

  /** A step that is not a late confirm runs one whole request, or none. */
  lemma StepRefines(s: State, step: Step)
    requires Inv(s) && Enabled(s, step) && !LateConfirm(s, step)
    ensures match OpOf(s, step)
            case None => Core(Next(s, step).db) == Core(s.db)
            case Some(op) => Whole(s.db, op).Ok? && Core(Whole(s.db, op).value) == Core(Next(s, step).db)
  {
    if CommitsNow(s, step) {
      CommitRefines(s, step);
    }
  }

  /** No whole request revives a cancelled or expired booking. */
  lemma WholeKeepsFinal(db: Db, op: Op, b: nat)
    requires b < |db.bookings| && IsFinal(db.bookings[b].status) && Whole(db, op).Ok?
    ensures b < |Whole(db, op).value.bookings|
    ensures Whole(db, op).value.bookings[b] == db.bookings[b]
  {
    CancellableMeansTransition(db.bookings[b].status);
  }

  /** A step has the effect of at most one whole request exactly if it is not a late confirm. */
  lemma StepRefinesIff(s: State, step: Step)
    requires Inv(s) && Enabled(s, step)
    ensures !LateConfirm(s, step)
       <==> (Core(Next(s, step).db) == Core(s.db)
             || exists op :: Whole(s.db, op).Ok? && Core(Whole(s.db, op).value) == Core(Next(s, step).db))
  {
    if LateConfirm(s, step) {
      var b := s.pending[step.rid].bookingId;
      assert Next(s, step).db.bookings[b].status == CONFIRMED;
      assert Core(Next(s, step).db).bookings[b] != Core(s.db).bookings[b];
      forall op | Whole(s.db, op).Ok?
        ensures Core(Whole(s.db, op).value) != Core(Next(s, step).db)
      {
        WholeKeepsFinal(s.db, op, b);
        assert Core(Whole(s.db, op).value).bookings[b] != Core(Next(s, step).db).bookings[b];
      }
    } else {
      StepRefines(s, step);
      if OpOf(s, step).Some? {
        var op := OpOf(s, step).value;
        assert Whole(s.db, op).Ok? && Core(Whole(s.db, op).value) == Core(Next(s, step).db);
      }
    }
  }

  // ---------- whole runs ----------

  /** The requests that take effect, in commit order. */
  function Ops(states: seq<State>, steps: seq<Step>): seq<Op>
    requires |states| == |steps| + 1
    decreases |steps|
  {
    if steps == [] then []
    else
      var n := |steps| - 1;
      Ops(states[..n + 1], steps[..n])
        + (match OpOf(states[n], steps[n]) case None => [] case Some(op) => [op])
  }

  /** Run whole requests one after the other; None if one of them fails. */
  function RunWhole(db: Db, ops: seq<Op>): Option<Db>
    decreases |ops|
  {
    if ops == [] then Some(db)
    else
      var n := |ops| - 1;
      match RunWhole(db, ops[..n])
      case None => None
      case Some(before) =>
        match Whole(before, ops[n])
        case Err(_) => None
        case Ok(after) => Some(after)
  }

  /** Whole requests look only at slots and bookings. */
  lemma WholeCongruence(d1: Db, d2: Db, op: Op)
    requires Core(d1) == Core(d2) && Whole(d1, op).Ok?
    ensures Whole(d2, op).Ok? && Core(Whole(d1, op).value) == Core(Whole(d2, op).value)
  {
    assert Core(d1).bookings == Core(d2).bookings && Core(d1).slots == Core(d2).slots
      && Core(d1).activeExperiences == Core(d2).activeExperiences;
  }

  predicate NoLate(states: seq<State>, steps: seq<Step>)
    requires |states| == |steps| + 1
  {
    forall m :: 0 <= m < |steps| ==> !LateConfirm(states[m], steps[m])
  }

  lemma RunWholeAppend(db: Db, ops: seq<Op>, op: Op)
    ensures RunWhole(db, ops).Some? && Whole(RunWhole(db, ops).value, op).Ok? ==>
              RunWhole(db, ops + [op]) == Some(Whole(RunWhole(db, ops).value, op).value)
  {
    assert (ops + [op])[..|ops|] == ops;
  }

  lemma RunWholeLast(db: Db, ops: seq<Op>)
    requires ops != [] && RunWhole(db, ops).Some?
    ensures var before := RunWhole(db, ops[..|ops| - 1]);
            before.Some? && Whole(before.value, ops[|ops| - 1]) == Ok(RunWhole(db, ops).value)
  {
  }

  lemma PrefixIsRun(states: seq<State>, steps: seq<Step>)
    requires IsRunFromStart(states, steps) && steps != []
    ensures IsRunFromStart(states[..|steps|], steps[..|steps| - 1])
  {
    var earlierStates, earlierSteps := states[..|steps|], steps[..|steps| - 1];
    forall k | 0 <= k < |earlierSteps|
      ensures StepAt(earlierStates, earlierSteps, k)
    {
      assert StepAt(states, steps, k);
    }
  }

  /** Every interleaved run without a late confirm ends with the slots and bookings of a one-request-at-a-time
      run of the same requests in commit order, each of which succeeds. */
  lemma {:induction false} InterleavingRefinesWhole(states: seq<State>, steps: seq<Step>)
    requires IsRunFromStart(states, steps) && NoLate(states, steps)
    ensures var result := RunWhole(states[0].db, Ops(states, steps));
            result.Some? && Core(result.value) == Core(states[|steps|].db)
    decreases |steps|
  {
    if steps != [] {
      var n := |steps| - 1;
      PrefixIsRun(states, steps);
      InterleavingRefinesWhole(states[..n + 1], steps[..n]);
      RunInvariant(states, steps, n);
      assert StepAt(states, steps, n);
      StepRefines(states[n], steps[n]);
      var earlier := Ops(states[..n + 1], steps[..n]);
      match OpOf(states[n], steps[n])
      case None =>
        assert Ops(states, steps) == earlier;
      case Some(op) =>
        WholeCongruence(states[n].db, RunWhole(states[0].db, earlier).value, op);
        RunWholeAppend(states[0].db, earlier, op);
        assert Ops(states, steps) == earlier + [op];
    }
  }

  // ---------- the other direction ----------

  /** The read step that starts a request. */
  function ReadStep(rid: nat, op: Op): Step
    requires !op.OpExpire?
  {
    match op
    case OpCreate(tenantId, userId, slotId, partySize, totalPrice, _, _) =>
      ReadForCreate(rid, tenantId, userId, slotId, partySize, totalPrice)
    case OpConfirm(tenantId, userId, reference, _) => ReadForConfirm(rid, tenantId, userId, reference)
    case OpCancel(tenantId, userId, reference, reason) => ReadForCancel(rid, tenantId, userId, reference, reason)
  }

  /** A whole request is the interleaving in which nothing comes between its read and its transaction. */
  lemma WholeIsInterleaving(s: State, rid: nat, op: Op)
    requires !op.OpExpire? && rid !in s.pending
    requires op.OpCreate? ==> op.partySize >= 1 && op.reservedUntil == s.now + s.ttl
    requires op.OpConfirm? ==> op.readAt == s.now
    ensures Enabled(s, ReadStep(rid, op))
    ensures var read := Next(s, ReadStep(rid, op));
            match Whole(s.db, op)
            case Ok(after) =>
              && Enabled(read, CommitStep(rid, op.reference))
              && Next(read, CommitStep(rid, op.reference)).db == after
              && Next(read, CommitStep(rid, op.reference)).pending == s.pending
            case Err(_) =>
              if ReadPhase(s.db, op).Err? then read == s
              else rid in read.pending && Next(read, CommitStep(rid, op.reference)) == s
  {
    var r := ReadPhase(s.db, op);
    if r.Ok? {
      assert s.pending[rid := r.value] - {rid} == s.pending;
    }
  }

  /** An aborted request leaves nothing behind. */
  lemma AbortUndoesRead(s: State, rid: nat, op: Op)
    requires !op.OpExpire? && rid !in s.pending && (op.OpCreate? ==> op.partySize >= 1)
    ensures Enabled(s, ReadStep(rid, op))
    ensures var read := Next(s, ReadStep(rid, op));
            rid in read.pending ==> Enabled(read, AbortStep(rid)) && Next(read, AbortStep(rid)) == s
  {
    var read := Next(s, ReadStep(rid, op));
    assert read.pending - {rid} == s.pending;
  }

  /** Time passes: once the clock has gone past a hold, the worker's next step expires the booking. */
  lemma TickThenExpire(s: State, elapsed: nat, id: nat)
    requires Inv(s) && id < |s.db.bookings| && SlotCovered(s.db, s.db.bookings[id].slotId)
    requires s.db.bookings[id].status == RESERVED && s.db.bookings[id].reservedUntil.Some?
    requires s.now + elapsed > s.db.bookings[id].reservedUntil.value
    ensures Enabled(s, Tick(elapsed)) && Enabled(Next(s, Tick(elapsed)), ExpireStep(id))
    ensures var late := Next(Next(s, Tick(elapsed)), ExpireStep(id));
            late.now == s.now + elapsed && id < |late.db.bookings| && late.db.bookings[id].status == EXPIRED
  {
    ExpireSucceeds(s.db, id, s.now + elapsed);
  }
}
