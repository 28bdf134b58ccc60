/**
  The no-late-confirm hypothesis is needed: a run in which a confirm lands on a
  booking cancelled after the read, the slot is then sold beyond its capacity, and
  an active booking can no longer be cancelled.
 */
module LateConfirmWitness {
  import opened Wrappers
  import opened BookingState
  import opened Tables
  import opened Transactions
  import opened Evolution
  import opened Protocol
  import opened Runs

  /** One slot with two seats. */
  function OneSlot(reserved: int, version: int): seq<Slot> {
    [Slot("t", 7, Instant(0, 1), 2, reserved, version)]
  }

  function BookingA(status: Status): Booking {
    Booking("A", "t", "u", 7, 0, 2, 1000, status, if status == RESERVED then Some(900) else None)
  }

  function BookingB(): Booking {
    Booking("B", "t", "v", 7, 0, 2, 1000, RESERVED, Some(900))
  }

  const CREATE_A := PendingCreate("t", "u", 0, 7, 2, 1000, 0, 900)
  const CREATE_B := PendingCreate("t", "v", 0, 7, 2, 1000, 2, 900)
  const CONFIRM_A := PendingConfirm("t", "u", 0, "A", RESERVED, 0)
  const CANCEL_A := PendingCancel("t", "u", 0, "A", RESERVED, 0, 2, 1, "changed plans")

  function Rows(n: nat): seq<HistoryRow>
    requires n <= 4
  {
    [
      HistoryRow(0, None, RESERVED, Some("u"), None),
      HistoryRow(0, Some(RESERVED), CANCELLED, Some("u"), Some("changed plans")),
      HistoryRow(0, Some(RESERVED), CONFIRMED, Some("u"), None),
      HistoryRow(1, None, RESERVED, Some("v"), None)
    ][..n]
  }

  function AuditRows(n: nat): seq<AuditRow>
    requires n <= 4
  {
    [
      AuditRow(BOOKING_RESERVED, "t", Some("u"), 0, "A", None),
      AuditRow(BOOKING_CANCELLED, "t", Some("u"), 0, "A", Some(RESERVED)),
      AuditRow(BOOKING_CONFIRMED, "t", Some("u"), 0, "A", Some(RESERVED)),
      AuditRow(BOOKING_RESERVED, "t", Some("v"), 1, "B", None)
    ][..n]
  }

  function At(slots: seq<Slot>, bookings: seq<Booking>, rows: nat, pending: map<nat, Pending>, late: int): State
    requires rows <= 4
  {
    State(Db({7}, slots, bookings, Rows(rows), AuditRows(rows)), 0, 900, pending, [late])
  }

  function WitnessSteps(): seq<Step> {
    [
      ReadForCreate(0, "t", "u", 0, 2, 1000),
      CommitStep(0, "A"),
      ReadForConfirm(1, "t", "u", "A"),
      ReadForCancel(2, "t", "u", "A", "changed plans"),
      CommitStep(2, ""),
      CommitStep(1, ""),
      ReadForCreate(3, "t", "v", 0, 2, 1000),
      CommitStep(3, "B")
    ]
  }

  function WitnessStates(): seq<State> {
    [
      At(OneSlot(0, 0), [], 0, map[], 0),
      At(OneSlot(0, 0), [], 0, map[0 := CREATE_A], 0),
      At(OneSlot(2, 1), [BookingA(RESERVED)], 1, map[], 0),
      At(OneSlot(2, 1), [BookingA(RESERVED)], 1, map[1 := CONFIRM_A], 0),
      At(OneSlot(2, 1), [BookingA(RESERVED)], 1, map[1 := CONFIRM_A, 2 := CANCEL_A], 0),
      At(OneSlot(0, 2), [BookingA(CANCELLED)], 2, map[1 := CONFIRM_A], 0),
      At(OneSlot(0, 2), [BookingA(CONFIRMED)], 3, map[], 2),
      At(OneSlot(0, 2), [BookingA(CONFIRMED)], 3, map[3 := CREATE_B], 2),
      At(OneSlot(2, 3), [BookingA(CONFIRMED), BookingB()], 4, map[], 2)
    ]
  }

  predicate Good(k: nat) {
    k < |WitnessSteps()| < |WitnessStates()| && StepAt(WitnessStates(), WitnessSteps(), k)
  }

  lemma FindA(bookings: seq<Booking>)
    requires |bookings| == 1 && Owned(bookings[0], "t", "u", "A")
    ensures FindOwned(bookings, "t", "u", "A") == Some(0)
  {
  }

  lemma Step0() ensures Good(0) {
  }

  lemma Step1() ensures Good(1) {
    assert map[0 := CREATE_A] - {0} == map[];
  }

  lemma Step2() ensures Good(2) {
    FindA([BookingA(RESERVED)]);
  }

  lemma Step3() ensures Good(3) {
    FindA([BookingA(RESERVED)]);
  }

  lemma Step4() ensures Good(4) {
    assert map[1 := CONFIRM_A, 2 := CANCEL_A] - {2} == map[1 := CONFIRM_A];
  }

  lemma Step5() ensures Good(5) {
    assert map[1 := CONFIRM_A] - {1} == map[];
  }

  lemma Step6() ensures Good(6) {
  }

  lemma Step7() ensures Good(7) {
    assert map[3 := CREATE_B] - {3} == map[];
  }

  lemma AllGood(k: nat)
    requires k < 8
    ensures Good(k)
  {
    if k == 0 { Step0(); }
    else if k == 1 { Step1(); }
    else if k == 2 { Step2(); }
    else if k == 3 { Step3(); }
    else if k == 4 { Step4(); }
    else if k == 5 { Step5(); }
    else if k == 6 { Step6(); }
    else { Step7(); }
  }

  lemma WitnessIsRun()
    ensures IsRunFromStart(WitnessStates(), WitnessSteps())
  {
    forall k | 0 <= k < |WitnessSteps()| ensures StepAt(WitnessStates(), WitnessSteps(), k) {
      AllGood(k);
    }
  }

  lemma FinalSum()
    ensures ActiveSum([BookingA(CONFIRMED), BookingB()], 0) == 4
  {
    var a, b := BookingA(CONFIRMED), BookingB();
    ActiveSumAppend([], a, 0);
    ActiveSumAppend([a], b, 0);
    assert [] + [a] == [a] && [a] + [b] == [a, b];
  }

  /** From a sound start, one late confirm is enough to hold four seats on a two-seat slot; before that, the
      confirmed booking's own cancellation is refused although nothing else is in flight. */
  lemma LateConfirmOverbooks()
    ensures IsRunFromStart(WitnessStates(), WitnessSteps())
    ensures WithinCapacity(WitnessStates()[0].db) && Covered(WitnessStates()[0].db)
    ensures LateConfirmOn(WitnessStates()[5], WitnessSteps()[5], 0)
    ensures var stuck := WitnessStates()[6];
            && stuck.pending == map[] && IsActive(stuck.db.bookings[0])
            && Whole(stuck.db, OpCancel("t", "u", "A", "again")).Err?
    ensures var last := WitnessStates()[8].db; ActiveSum(last.bookings, 0) == 4 && last.slots[0].capacity == 2
  {
    WitnessIsRun();
    FinalSum();
    FindA([BookingA(CONFIRMED)]);
  }
}
