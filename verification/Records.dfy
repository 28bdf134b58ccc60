/**
  Status history and audit log against the bookings they describe
  (src/services/booking.service.ts, src/lib/audit.ts).
 */
module Records {
  import opened Wrappers
  import opened BookingState
  import opened Tables
  import opened Transactions
  import opened Evolution
  import opened Protocol
  import opened Runs
  import opened Refinement

  // ---------- history replays status ----------

  predicate RowAllowed(row: HistoryRow) {
    CanTransition(row.fromStatus, row.toStatus)
  }

  function ExpiredRows(rows: seq<HistoryRow>): nat {
    if rows == [] then 0
    else
      var n := |rows| - 1;
      ExpiredRows(rows[..n]) + (if rows[n].toStatus == EXPIRED then 1 else 0)
  }

  lemma ExpiredRowsAppend(rows: seq<HistoryRow>, row: HistoryRow)
    ensures ExpiredRows(rows + [row]) == ExpiredRows(rows) + (if row.toStatus == EXPIRED then 1 else 0)
  {
    assert (rows + [row])[..|rows|] == rows;
  }

  /** A created booking's history starts it as RESERVED, makes only allowed moves after that, ends at its
      current status, and expires it at most once; it has a hold exactly while it is RESERVED. */
  predicate Replays(rows: seq<HistoryRow>, b: Booking) {
    && rows != []
    && rows[0].fromStatus == None && rows[0].toStatus == RESERVED
    && (forall k :: 0 <= k < |rows| ==> RowAllowed(rows[k]))
    && (forall k :: 0 < k < |rows| ==> rows[k].fromStatus.Some? && rows[k].toStatus != RESERVED)
    && rows[|rows| - 1].toStatus == b.status
    && ExpiredRows(rows) <= 1
    && (b.status == RESERVED ==> |rows| == 1)
    && (b.reservedUntil.Some? <==> b.status == RESERVED)
  }

  lemma FirstRowReplays(row: HistoryRow, b: Booking)
    requires row.fromStatus == None && row.toStatus == RESERVED
    requires b.status == RESERVED && b.reservedUntil.Some?
    ensures Replays([row], b)
  {
  }

  lemma NextRowReplays(rows: seq<HistoryRow>, b: Booking, row: HistoryRow, b': Booking)
    requires Replays(rows, b) && RowAllowed(row)
    requires row.fromStatus.Some? && row.toStatus != RESERVED && (row.toStatus == EXPIRED ==> b.status == RESERVED)
    requires b'.status == row.toStatus && b'.reservedUntil.None?
    ensures Replays(rows + [row], b')
  {
    ExpiredRowsAppend(rows, row);
    if |rows| == 1 {
      assert ExpiredRows(rows[..0]) == 0;
    }
  }

  /** Bookings from row `first` on were created by the service. */
  predicate HistoryReplays(db: Db, first: nat) {
    forall b :: first <= b < |db.bookings| ==> Replays(HistoryOf(db.history, b), db.bookings[b])
  }

  lemma MoveReplays(db: Db, first: nat, slots: seq<Slot>, id: nat, from: Status, to: Status, tenantId: string,
                    reference: string, actor: Option<string>, reason: Option<string>)
    requires HistoryReplays(db, first) && id < |db.bookings|
    requires to != RESERVED && CanTransition(Some(from), to)
    requires to == EXPIRED ==> db.bookings[id].status == RESERVED
    ensures HistoryReplays(Move(db, slots, id, from, to, tenantId, reference, actor, reason), first)
  {
    var after := Move(db, slots, id, from, to, tenantId, reference, actor, reason);
    var row := HistoryRow(id, Some(from), to, actor, reason);
    forall b | first <= b < |after.bookings|
      ensures Replays(HistoryOf(after.history, b), after.bookings[b])
    {
      HistoryOfAppend(db.history, row, b);
      assert Replays(HistoryOf(db.history, b), db.bookings[b]);
      if b == id {
        NextRowReplays(HistoryOf(db.history, b), db.bookings[b], row, after.bookings[b]);
      } else {
        assert HistoryOf(after.history, b) == HistoryOf(db.history, b);
      }
    }
  }

  lemma NewBookingReplays(db: Db, after: Db, first: nat, row: HistoryRow, b: Booking)
    requires HistoryReplays(db, first)
    requires forall h :: 0 <= h < |db.history| ==> db.history[h].bookingId < |db.bookings|
    requires after.history == db.history + [row] && after.bookings == db.bookings + [b]
    requires row.bookingId == |db.bookings| && row.fromStatus == None && row.toStatus == RESERVED
    requires b.status == RESERVED && b.reservedUntil.Some?
    ensures HistoryReplays(after, first)
  {
    forall k | first <= k < |after.bookings|
      ensures Replays(HistoryOf(after.history, k), after.bookings[k])
    {
      HistoryOfAppend(db.history, row, k);
      if k < |db.bookings| {
        assert Replays(HistoryOf(db.history, k), db.bookings[k]);
        assert HistoryOf(after.history, k) == HistoryOf(db.history, k);
      } else {
        HistoryOfUnseen(db.history, k);
        assert HistoryOf(after.history, k) == [row];
        FirstRowReplays(row, b);
      }
    }
  }

  lemma CreateReplays(db: Db, first: nat, p: Pending, reference: string)
    requires WellFormed(db) && p.PendingCreate? && HistoryReplays(db, first) && Commit(db, p, reference).Ok?
    ensures HistoryReplays(Commit(db, p, reference).value, first)
  {
    var after := Commit(db, p, reference).value;
    NewBookingReplays(db, after, first, after.history[|db.history|], after.bookings[|db.bookings|]);
  }

  lemma CommitReplays(db: Db, first: nat, p: Pending, reference: string)
    requires WellFormed(db) && PendingOk(db, p) && HistoryReplays(db, first) && Commit(db, p, reference).Ok?
    ensures HistoryReplays(Commit(db, p, reference).value, first)
  {
    match p
    case PendingCreate(_, _, _, _, _, _, _, _) =>
      CreateReplays(db, first, p, reference);
    case PendingConfirm(tenantId, userId, bookingId, ref, from, _) =>
      MoveReplays(db, first, db.slots, bookingId, from, CONFIRMED, tenantId, ref, Some(userId), None);
    case PendingCancel(tenantId, userId, bookingId, ref, from, slotId, partySize, version, reason) =>
      CancellableMeansTransition(from);
      MoveReplays(db, first, AdjustSlot(db.slots, slotId, tenantId, -partySize, version).value, bookingId, from,
                  CANCELLED, tenantId, ref, Some(userId), Some(reason));
  }

  lemma ExpireReplays(db: Db, first: nat, id: nat, now: int)
    requires WellFormed(db) && HistoryReplays(db, first) && id < |db.bookings|
    ensures HistoryReplays(ExpireDb(db, SelectStale(db.bookings, id), now), first)
  {
    var row := SelectStale(db.bookings, id);
    match ExpireTx(db, row, now)
    case Ok(Some(after)) =>
      MoveReplays(db, first, after.slots, id, RESERVED, EXPIRED, row.tenantId, row.reference, None,
                  Some("Reservation hold expired"));
    case Ok(None) =>
    case Err(_) =>
  }

  lemma StepReplays(s: State, step: Step, first: nat)
    requires Inv(s) && Enabled(s, step) && HistoryReplays(s.db, first)
    ensures HistoryReplays(Next(s, step).db, first)
  {
    if CommitsNow(s, step) { CommitReplays(s.db, first, s.pending[step.rid], step.newReference); }
    if step.ExpireStep? { ExpireReplays(s.db, first, step.bookingId, s.now); }
  }

  /** In every interleaving, at every point. */
  lemma {:induction false} RunReplays(states: seq<State>, steps: seq<Step>, k: nat)
    requires IsRunFromStart(states, steps) && k < |states|
    ensures HistoryReplays(states[k].db, |states[0].db.bookings|)
  {
    if k > 0 {
      RunReplays(states, steps, k - 1);
      RunInvariant(states, steps, k - 1);
      assert StepAt(states, steps, k - 1);
      StepReplays(states[k - 1], steps[k - 1], |states[0].db.bookings|);
    }
  }

  // ---------- when rows link up ----------

  /** Each row starts where the row before it ended. */
  predicate Linked(rows: seq<HistoryRow>) {
    forall k :: 0 < k < |rows| ==> rows[k].fromStatus == Some(rows[k - 1].toStatus)
  }

  /** A confirm or cancel keeps a booking's rows linked exactly if its status is still the one the request read. */
  lemma CommitLinksIff(db: Db, first: nat, p: Pending, reference: string)
    requires WellFormed(db) && PendingOk(db, p) && HistoryReplays(db, first) && !p.PendingCreate?
    requires Commit(db, p, reference).Ok? && first <= p.bookingId && Linked(HistoryOf(db.history, p.bookingId))
    ensures Linked(HistoryOf(Commit(db, p, reference).value.history, p.bookingId))
       <==> p.fromStatus == db.bookings[p.bookingId].status
  {
    var rows := HistoryOf(db.history, p.bookingId);
    var after := Commit(db, p, reference).value;
    var row := after.history[|db.history|];
    assert Replays(rows, db.bookings[p.bookingId]);
    HistoryOfAppend(db.history, row, p.bookingId);
    var rows' := HistoryOf(after.history, p.bookingId);
    assert rows' == rows + [row] && row.fromStatus == Some(p.fromStatus);
    assert rows'[|rows| - 1].toStatus == db.bookings[p.bookingId].status;
    assert rows'[|rows|] == row;
  }

  predicate HistoryLinked(db: Db, first: nat) {
    forall b :: first <= b < |db.bookings| ==> Linked(HistoryOf(db.history, b))
  }

  /** Linked rows are a walk through the life cycle, so there are at most three. */
  lemma LinkedRowsAreFew(rows: seq<HistoryRow>, b: Booking)
    requires Replays(rows, b) && Linked(rows)
    ensures |rows| <= 3
  {
    var path := seq(|rows|, k requires 0 <= k < |rows| => rows[k].toStatus);
    forall k | 0 < k < |path|
      ensures CanTransition(Some(path[k - 1]), path[k])
    {
      assert RowAllowed(rows[k]);
    }
    PathsAreShort(path);
  }

  lemma {:induction false} LinkedAppend(rows: seq<HistoryRow>, row: HistoryRow)
    ensures Linked(rows + [row])
       <==> Linked(rows) && (rows != [] ==> row.fromStatus == Some(rows[|rows| - 1].toStatus))
  {
    var more := rows + [row];
    if Linked(more) {
      forall k | 0 < k < |rows| ensures rows[k].fromStatus == Some(rows[k - 1].toStatus) {
        assert more[k].fromStatus == Some(more[k - 1].toStatus);
      }
      if rows != [] { assert more[|rows|].fromStatus == Some(more[|rows| - 1].toStatus); }
    }
  }

  /** The row starts where its booking, if there before, stands. */
  predicate StartsAtStatus(db: Db, first: nat, row: HistoryRow) {
    first <= row.bookingId < |db.bookings| ==> row.fromStatus == Some(db.bookings[row.bookingId].status)
  }

  lemma AppendLinksOne(db: Db, after: Db, first: nat, row: HistoryRow, b: nat)
    requires WellFormed(db) && HistoryReplays(db, first) && after.history == db.history + [row] && first <= b
    ensures Linked(HistoryOf(after.history, b))
       <==> Linked(HistoryOf(db.history, b)) && (row.bookingId == b ==> StartsAtStatus(db, first, row))
  {
    HistoryOfAppend(db.history, row, b);
    LinkedAppend(HistoryOf(db.history, b), row);
    if b < |db.bookings| {
      assert Replays(HistoryOf(db.history, b), db.bookings[b]);
    } else {
      HistoryOfUnseen(db.history, b);
    }
    if row.bookingId != b {
      assert HistoryOf(after.history, b) == HistoryOf(db.history, b);
    }
  }

  lemma UnseenIsLinked(db: Db, b: nat)
    requires WellFormed(db) && b >= |db.bookings|
    ensures Linked(HistoryOf(db.history, b))
  {
    HistoryOfUnseen(db.history, b);
  }

  /** One more row keeps all rows linked exactly if it starts where its booking stands. */
  lemma AppendLinksIff(db: Db, after: Db, first: nat, row: HistoryRow)
    requires WellFormed(db) && HistoryReplays(db, first) && after.history == db.history + [row]
    requires |db.bookings| <= |after.bookings| && row.bookingId < |after.bookings|
    ensures HistoryLinked(after, first) <==> HistoryLinked(db, first) && StartsAtStatus(db, first, row)
  {
    forall b | first <= b
      ensures Linked(HistoryOf(after.history, b))
         <==> Linked(HistoryOf(db.history, b)) && (row.bookingId == b ==> StartsAtStatus(db, first, row))
      ensures b >= |db.bookings| ==> Linked(HistoryOf(db.history, b))
    {
      AppendLinksOne(db, after, first, row, b);
      if b >= |db.bookings| { UnseenIsLinked(db, b); }
    }
  }

  lemma WholeAppendsLinkedRow(db: Db, op: Op)
    requires WellFormed(db) && Whole(db, op).Ok?
    ensures var after := Whole(db, op).value;
            after.history != db.history ==>
              && after.history[..|db.history|] == db.history && |after.history| == |db.history| + 1
              && |db.bookings| <= |after.bookings| <= |db.bookings| + 1
              && var row := after.history[|db.history|];
              row.bookingId < |db.bookings| ==> row.fromStatus == Some(db.bookings[row.bookingId].status)
  {
  }

  /** The request schema asks for at least one person. */
  predicate Schema(op: Op) {
    op.OpCreate? ==> op.partySize >= 1
  }

  lemma WholeEvolves(db: Db, op: Op)
    requires WellFormed(db) && Whole(db, op).Ok?
    requires Schema(op)
    ensures WellFormed(Whole(db, op).value) && Evolves(db, Whole(db, op).value)
  {
    if op.OpExpire? {
      ExpireEvolves(db, op.id, op.at);
    } else {
      ReadEstablishes(db, op);
      CommitEvolves(db, ReadPhase(db, op).value, op.reference);
    }
  }

  lemma WholeReplays(db: Db, op: Op, first: nat)
    requires WellFormed(db) && HistoryReplays(db, first) && Whole(db, op).Ok?
    requires Schema(op)
    ensures HistoryReplays(Whole(db, op).value, first)
  {
    if op.OpExpire? {
      ExpireReplays(db, first, op.id, op.at);
    } else {
      ReadEstablishes(db, op);
      CommitReplays(db, first, ReadPhase(db, op).value, op.reference);
    }
  }

  predicate LinkedRecords(db: Db, first: nat) {
    WellFormed(db) && HistoryReplays(db, first) && HistoryLinked(db, first)
  }

  /** A whole request appends one row that starts at the booking's current status, or nothing. */
  lemma WholeKeepsRecords(db: Db, op: Op, first: nat)
    requires LinkedRecords(db, first) && Whole(db, op).Ok?
    requires Schema(op)
    ensures LinkedRecords(Whole(db, op).value, first)
  {
    var after := Whole(db, op).value;
    WholeEvolves(db, op);
    WholeReplays(db, op, first);
    WholeAppendsLinkedRow(db, op);
    if after.history == db.history {
      LinksOfSame(db, after, first);
    } else {
      assert after.history == db.history + [after.history[|db.history|]];
      AppendLinksIff(db, after, first, after.history[|db.history|]);
    }
  }

  lemma LinksOfSame(db: Db, after: Db, first: nat)
    requires WellFormed(db) && HistoryLinked(db, first) && after.history == db.history
    ensures HistoryLinked(after, first)
  {
    forall b | first <= b < |after.bookings|
      ensures Linked(HistoryOf(after.history, b))
    {
      if b >= |db.bookings| { HistoryOfUnseen(db.history, b); }
    }
  }

  lemma {:induction false} WholeRunRecords(db: Db, ops: seq<Op>, first: nat)
    requires LinkedRecords(db, first)
    requires forall k :: 0 <= k < |ops| ==> Schema(ops[k])
    requires RunWhole(db, ops).Some?
    ensures LinkedRecords(RunWhole(db, ops).value, first)
    decreases |ops|
  {
    if ops != [] {
      var n := |ops| - 1;
      RunWholeLast(db, ops);
      WholeRunRecords(db, ops[..n], first);
      WholeKeepsRecords(RunWhole(db, ops[..n]).value, ops[n], first);
    }
  }

  /** One request at a time: every created booking's rows link from-to, and there are at most three. */
  lemma WholeRunLinks(db: Db, ops: seq<Op>, b: nat)
    requires WellFormed(db) && RunWhole(db, ops).Some?
    requires forall k :: 0 <= k < |ops| ==> Schema(ops[k])
    requires |db.bookings| <= b < |RunWhole(db, ops).value.bookings|
    ensures var after := RunWhole(db, ops).value;
            && Replays(HistoryOf(after.history, b), after.bookings[b])
            && Linked(HistoryOf(after.history, b))
            && |HistoryOf(after.history, b)| <= 3
  {
    var after := RunWhole(db, ops).value;
    WholeRunRecords(db, ops, |db.bookings|);
    LinkedRowsAreFew(HistoryOf(after.history, b), after.bookings[b]);
  }

  // ---------- linked rows under interleaving ----------

  /** A confirm or cancel commits with a status that is no longer the booking's. */
  predicate Drifts(s: State, step: Step, first: nat) {
    && CommitsNow(s, step) && !s.pending[step.rid].PendingCreate?
    && var p := s.pending[step.rid];
    first <= p.bookingId < |s.db.bookings| && p.fromStatus != s.db.bookings[p.bookingId].status
  }

  lemma CommitAppendsRow(db: Db, p: Pending, reference: string)
    requires Commit(db, p, reference).Ok?
    ensures var after := Commit(db, p, reference).value;
            && |after.history| == |db.history| + 1 && after.history == db.history + [after.history[|db.history|]]
            && |db.bookings| <= |after.bookings|
            && var row := after.history[|db.history|];
            && row.bookingId < |after.bookings|
            && if p.PendingCreate? then row.bookingId == |db.bookings|
               else row.bookingId == p.bookingId < |db.bookings| && row.fromStatus == Some(p.fromStatus)
  {
  }

  lemma CommitLinkedIff(s: State, step: Step, first: nat)
    requires Inv(s) && CommitsNow(s, step) && HistoryReplays(s.db, first)
    ensures var after := Commit(s.db, s.pending[step.rid], step.newReference).value;
            HistoryLinked(after, first) <==> HistoryLinked(s.db, first) && !Drifts(s, step, first)
  {
    var after := Commit(s.db, s.pending[step.rid], step.newReference).value;
    CommitAppendsRow(s.db, s.pending[step.rid], step.newReference);
    AppendLinksIff(s.db, after, first, after.history[|s.db.history|]);
  }

  lemma ExpireKeepsLinks(db: Db, id: nat, now: int, first: nat)
    requires WellFormed(db) && HistoryReplays(db, first) && id < |db.bookings|
    ensures HistoryLinked(ExpireDb(db, SelectStale(db.bookings, id), now), first) <==> HistoryLinked(db, first)
  {
    var after := ExpireDb(db, SelectStale(db.bookings, id), now);
    if after != db {
      AppendLinksIff(db, after, first, after.history[|db.history|]);
    }
  }

  lemma StepLinkedIff(s: State, step: Step, first: nat)
    requires Inv(s) && Enabled(s, step) && HistoryReplays(s.db, first)
    ensures HistoryLinked(Next(s, step).db, first) <==> HistoryLinked(s.db, first) && !Drifts(s, step, first)
  {
    if CommitsNow(s, step) {
      CommitLinkedIff(s, step, first);
    } else if step.ExpireStep? {
      ExpireKeepsLinks(s.db, step.bookingId, s.now, first);
    }
  }

  lemma StepAtLinkedIff(states: seq<State>, steps: seq<Step>, k: nat)
    requires IsRunFromStart(states, steps) && k < |steps|
    ensures var first := |states[0].db.bookings|;
            HistoryLinked(states[k + 1].db, first)
            <==> HistoryLinked(states[k].db, first) && !Drifts(states[k], steps[k], first)
  {
    RunInvariant(states, steps, k);
    RunReplays(states, steps, k);
    assert StepAt(states, steps, k);
    StepLinkedIff(states[k], steps[k], |states[0].db.bookings|);
  }

  predicate DriftBefore(states: seq<State>, steps: seq<Step>, k: nat, first: nat)
    requires k <= |steps| <= |states|
  {
    exists m :: 0 <= m < k && Drifts(states[m], steps[m], first)
  }

  lemma DriftBeforeStep(states: seq<State>, steps: seq<Step>, k: nat, first: nat)
    requires k < |steps| <= |states|
    ensures DriftBefore(states, steps, k + 1, first)
       <==> DriftBefore(states, steps, k, first) || Drifts(states[k], steps[k], first)
  {
  }

  /** In any interleaving, the rows of all created bookings link from-to exactly if every confirm and cancel so far
      found the status it had read. */
  lemma {:induction false} RunLinkedIff(states: seq<State>, steps: seq<Step>, k: nat)
    requires IsRunFromStart(states, steps) && k < |states|
    ensures HistoryLinked(states[k].db, |states[0].db.bookings|)
       <==> !DriftBefore(states, steps, k, |states[0].db.bookings|)
  {
    if k > 0 {
      RunLinkedIff(states, steps, k - 1);
      StepAtLinkedIff(states, steps, k - 1);
      DriftBeforeStep(states, steps, k - 1, |states[0].db.bookings|);
    }
  }

  // ---------- what bookings' statuses do ----------

  /** Every booking stays where it is or makes an allowed move. */
  predicate MovesAllowed(db: Db, after: Db) {
    && |db.bookings| <= |after.bookings|
    && forall b :: 0 <= b < |db.bookings| ==>
         after.bookings[b].status == db.bookings[b].status
         || CanTransition(Some(db.bookings[b].status), after.bookings[b].status)
  }

  /** Cancelled and expired bookings stay cancelled and expired. */
  predicate KeepsFinal(db: Db, after: Db) {
    && |db.bookings| <= |after.bookings|
    && forall b :: 0 <= b < |db.bookings| && IsFinal(db.bookings[b].status) ==>
         after.bookings[b].status == db.bookings[b].status
  }

  lemma CommitMoves(db: Db, p: Pending, reference: string)
    requires PendingOk(db, p) && Commit(db, p, reference).Ok?
    ensures var after := Commit(db, p, reference).value;
            if IsLate(db, p) then !KeepsFinal(db, after) && !MovesAllowed(db, after)
            else KeepsFinal(db, after) && MovesAllowed(db, after)
  {
    var after := Commit(db, p, reference).value;
    if !p.PendingCreate? {
      var b := p.bookingId;
      CancellableMeansTransition(db.bookings[b].status);
      assert after.bookings[b].status == if p.PendingConfirm? then CONFIRMED else CANCELLED;
      assert p.PendingConfirm? && !IsFinal(db.bookings[b].status) ==>
          db.bookings[b].status == CONFIRMED || CanTransition(Some(db.bookings[b].status), CONFIRMED) by {
        assert AllowedTransitions(RESERVED)[0] == CONFIRMED;
      }
    }
  }

  lemma ExpireMoves(db: Db, id: nat, now: int)
    requires id < |db.bookings|
    ensures var after := ExpireDb(db, SelectStale(db.bookings, id), now);
            KeepsFinal(db, after) && MovesAllowed(db, after)
  {
    assert AllowedTransitions(RESERVED)[2] == EXPIRED;
  }

  /** A step follows the transition table, and leaves final statuses alone, exactly if it is not a late confirm. */
  lemma StepMovesIff(s: State, step: Step)
    requires Inv(s) && Enabled(s, step)
    ensures MovesAllowed(s.db, Next(s, step).db) <==> !LateConfirm(s, step)
    ensures KeepsFinal(s.db, Next(s, step).db) <==> !LateConfirm(s, step)
  {
    if CommitsNow(s, step) {
      CommitMoves(s.db, s.pending[step.rid], step.newReference);
    } else if step.ExpireStep? {
      ExpireMoves(s.db, step.bookingId, s.now);
    }
  }

  predicate NoLateBefore(states: seq<State>, steps: seq<Step>, k: nat)
    requires k <= |steps| <= |states|
  {
    forall m :: 0 <= m < k ==> !LateConfirm(states[m], steps[m])
  }

  lemma StepAtMovesIff(states: seq<State>, steps: seq<Step>, k: nat)
    requires IsRunFromStart(states, steps) && k < |steps|
    ensures MovesAllowed(states[k].db, states[k + 1].db) <==> !LateConfirm(states[k], steps[k])
    ensures KeepsFinal(states[k].db, states[k + 1].db) <==> !LateConfirm(states[k], steps[k])
  {
    RunInvariant(states, steps, k);
    assert StepAt(states, steps, k);
    StepMovesIff(states[k], steps[k]);
  }

  /** Over a run, every move follows the transition table exactly if no confirm lands late. */
  lemma RunMovesIff(states: seq<State>, steps: seq<Step>, k: nat)
    requires IsRunFromStart(states, steps) && k < |states|
    ensures (forall m :: 0 <= m < k ==> MovesAllowed(states[m].db, states[m + 1].db))
        <==> NoLateBefore(states, steps, k)
  {
    if NoLateBefore(states, steps, k) {
      forall m | 0 <= m < k ensures MovesAllowed(states[m].db, states[m + 1].db) {
        StepAtMovesIff(states, steps, m);
      }
    } else {
      var m :| 0 <= m < k && LateConfirm(states[m], steps[m]);
      StepAtMovesIff(states, steps, m);
      assert !MovesAllowed(states[m].db, states[m + 1].db);
    }
  }

  lemma {:induction false} KeepsFinalThrough(states: seq<State>, steps: seq<Step>, i: nat, j: nat, k: nat)
    requires IsRunFromStart(states, steps) && i <= j <= k < |states| && NoLateBefore(states, steps, k)
    ensures KeepsFinal(states[i].db, states[j].db)
    decreases j
  {
    if i < j {
      KeepsFinalThrough(states, steps, i, j - 1, k);
      StepAtMovesIff(states, steps, j - 1);
    }
  }

  /** Over a run, CANCELLED and EXPIRED are permanent exactly if no confirm lands late. */
  lemma RunFinalIff(states: seq<State>, steps: seq<Step>, k: nat)
    requires IsRunFromStart(states, steps) && k < |states|
    ensures (forall i, j :: 0 <= i <= j <= k ==> KeepsFinal(states[i].db, states[j].db))
        <==> NoLateBefore(states, steps, k)
  {
    if NoLateBefore(states, steps, k) {
      forall i, j | 0 <= i <= j <= k ensures KeepsFinal(states[i].db, states[j].db) {
        KeepsFinalThrough(states, steps, i, j, k);
      }
    } else {
      var m :| 0 <= m < k && LateConfirm(states[m], steps[m]);
      StepAtMovesIff(states, steps, m);
      assert !KeepsFinal(states[m].db, states[m + 1].db);
    }
  }

  // ---------- lockstep audit log ----------

  predicate Matches(db: Db, row: HistoryRow, audit: AuditRow) {
    && row.bookingId < |db.bookings|
    && audit.entityId == row.bookingId
    && audit.eventType == EventFor(row.toStatus)
    && audit.previousStatus == row.fromStatus
    && audit.actorUserId == row.actorUserId
    && audit.tenantId == db.bookings[row.bookingId].tenantId
    && audit.bookingRef == db.bookings[row.bookingId].reference
  }

  /** From row h on, history rows correspond one to one, in order, to the booking audit rows from row a on. */
  predicate Lockstep(db: Db, h: nat, a: nat) {
    && h <= |db.history| && a <= |db.audit|
    && |db.history| - h == |db.audit| - a
    && (forall k :: h <= k < |db.history| ==> Matches(db, db.history[k], db.audit[k - h + a]))
  }

  lemma AppendLockstep(db: Db, after: Db, row: HistoryRow, audit: AuditRow, h: nat, a: nat)
    requires Lockstep(db, h, a) && Evolves(db, after)
    requires after.history == db.history + [row] && after.audit == db.audit + [audit]
    requires Matches(after, row, audit)
    ensures Lockstep(after, h, a)
  {
  }

  lemma CommitLockstep(db: Db, p: Pending, reference: string, h: nat, a: nat)
    requires WellFormed(db) && PendingOk(db, p) && Lockstep(db, h, a) && Commit(db, p, reference).Ok?
    ensures Lockstep(Commit(db, p, reference).value, h, a)
  {
    var after := Commit(db, p, reference).value;
    CommitEvolves(db, p, reference);
    var row, audit := after.history[|db.history|], after.audit[|db.audit|];
    AppendLockstep(db, after, row, audit, h, a);
  }

  lemma ExpireLockstep(db: Db, id: nat, now: int, h: nat, a: nat)
    requires WellFormed(db) && id < |db.bookings| && Lockstep(db, h, a)
    ensures Lockstep(ExpireDb(db, SelectStale(db.bookings, id), now), h, a)
  {
  }

  /** The audit log never lags, leads or disagrees, in any interleaving. */
  lemma {:induction false} RunLockstep(states: seq<State>, steps: seq<Step>, k: nat)
    requires IsRunFromStart(states, steps) && k < |states|
    ensures Lockstep(states[k].db, |states[0].db.history|, |states[0].db.audit|)
  {
    if k > 0 {
      var s, step := states[k - 1], steps[k - 1];
      RunLockstep(states, steps, k - 1);
      RunInvariant(states, steps, k - 1);
      assert StepAt(states, steps, k - 1);
      if CommitsNow(s, step) {
        CommitLockstep(s.db, s.pending[step.rid], step.newReference, |states[0].db.history|, |states[0].db.audit|);
      }
      if step.ExpireStep? {
        ExpireLockstep(s.db, step.bookingId, s.now, |states[0].db.history|, |states[0].db.audit|);
      }
    }
  }

  // ---------- a booking expires at most once, after its hold ----------

  predicate ExpiresAt(states: seq<State>, k: nat, b: nat)
    requires k + 1 < |states|
  {
    && b < |states[k].db.bookings| && b < |states[k + 1].db.bookings|
    && states[k].db.bookings[b].status != EXPIRED
    && states[k + 1].db.bookings[b].status == EXPIRED
  }

  lemma CommitExpiresNothing(db: Db, p: Pending, reference: string, b: nat)
    requires Commit(db, p, reference).Ok? && b < |db.bookings| && db.bookings[b].status != EXPIRED
    ensures b < |Commit(db, p, reference).value.bookings|
    ensures Commit(db, p, reference).value.bookings[b].status != EXPIRED
  {
  }

  lemma ExpiresOnlyWhenLapsed(states: seq<State>, steps: seq<Step>, k: nat, b: nat)
    requires IsRunFromStart(states, steps) && k < |steps| && ExpiresAt(states, k, b)
    ensures steps[k] == ExpireStep(b)
    ensures IsOverdue(states[k].db.bookings[b], states[k].now)
  {
    var s, step := states[k], steps[k];
    assert StepAt(states, steps, k);
    if CommitsNow(s, step) {
      CommitExpiresNothing(s.db, s.pending[step.rid], step.newReference, b);
    }
  }

  /** Every booking, created or already there, expires at most once in a run. */
  lemma ExpiresAtMostOnce(states: seq<State>, steps: seq<Step>, k1: nat, k2: nat, b: nat)
    requires IsRunFromStart(states, steps) && k1 < |steps| && k2 < |steps|
    requires ExpiresAt(states, k1, b) && ExpiresAt(states, k2, b)
    ensures k1 == k2
  {
    ExpiresOnlyWhenLapsed(states, steps, k1, b);
    ExpiresOnlyWhenLapsed(states, steps, k2, b);
    if k1 < k2 { NotReservedAgain(states, steps, k1, k2, b); }
    if k2 < k1 { NotReservedAgain(states, steps, k2, k1, b); }
  }

  /** RESERVED is never entered again. */
  lemma NotReservedAgain(states: seq<State>, steps: seq<Step>, i: nat, j: nat, b: nat)
    requires IsRunFromStart(states, steps) && i < j < |states|
    requires b < |states[i + 1].db.bookings| && states[i + 1].db.bookings[b].status != RESERVED
    ensures b < |states[j].db.bookings| && states[j].db.bookings[b].status != RESERVED
  {
    RunEvolves(states, steps, i + 1, j);
    assert BookingEvolves(states[i + 1].db.bookings[b], states[j].db.bookings[b]);
  }
}
