/**
  The expiry worker: each poll fetches the 50 oldest lapsed holds and expires
  them one transaction at a time.
 */
module Expiry {
  import opened Wrappers
  import opened BookingState
  import opened Tables
  import opened Transactions
  import opened Evolution

  const EXPIRY_BATCH_SIZE := 50

  datatype PollResult = PollResult(db: Db, expired: nat)

  /** Process a batch in order; `times[k]` is the clock when row k is claimed.  A failing row is skipped. */
  function Poll(db: Db, batch: seq<StaleRow>, times: seq<int>): PollResult
    requires |batch| == |times|
    decreases |batch|
  {
    if batch == [] then PollResult(db, 0)
    else
      var n := |batch| - 1;
      var before := Poll(db, batch[..n], times[..n]);
      match ExpireTx(before.db, batch[n], times[n])
      case Ok(Some(after)) => PollResult(after, before.expired + 1)
      case _ => before
  }

  // ---------- the query ----------

  /** Rows of distinct overdue bookings. */
  predicate StaleRows(bookings: seq<Booking>, now: int, batch: seq<StaleRow>) {
    && (forall k :: 0 <= k < |batch| ==>
          batch[k].id < |bookings| && batch[k] == SelectStale(bookings, batch[k].id)
          && IsOverdue(bookings[batch[k].id], now))
    && (forall j, k :: 0 <= j < k < |batch| ==> batch[j].id != batch[k].id)
  }

  predicate InBatch(batch: seq<StaleRow>, id: nat) {
    exists k :: 0 <= k < |batch| && batch[k].id == id
  }

  function HeldUntil(bookings: seq<Booking>, id: nat): int
    requires id < |bookings| && bookings[id].reservedUntil.Some?
  {
    bookings[id].reservedUntil.value
  }

  /** What the expiry query may return: overdue bookings by ascending hold, at most 50, none older left out. */
  predicate IsStaleBatch(bookings: seq<Booking>, now: int, batch: seq<StaleRow>) {
    && StaleRows(bookings, now, batch)
    && |batch| <= EXPIRY_BATCH_SIZE
    && (forall j, k :: 0 <= j < k < |batch| ==>
          HeldUntil(bookings, batch[j].id) <= HeldUntil(bookings, batch[k].id))
    && (forall b :: 0 <= b < |bookings| && IsOverdue(bookings[b], now) && !InBatch(batch, b) ==>
          |batch| == EXPIRY_BATCH_SIZE
          && forall k :: 0 <= k < |batch| ==> HeldUntil(bookings, batch[k].id) <= HeldUntil(bookings, b))
  }

  // ---------- a poll returns exactly the number it expired ----------

  function ExpiredBookings(bookings: seq<Booking>): nat {
    if bookings == [] then 0
    else
      var n := |bookings| - 1;
      ExpiredBookings(bookings[..n]) + (if bookings[n].status == EXPIRED then 1 else 0)
  }

  lemma {:induction false} ExpiredBookingsUpdate(bookings: seq<Booking>, i: nat, b: Booking)
    requires i < |bookings| && bookings[i].status != EXPIRED && b.status == EXPIRED
    ensures ExpiredBookings(bookings[i := b]) == ExpiredBookings(bookings) + 1
  {
    var n := |bookings| - 1;
    if i == n {
      assert bookings[i := b][..n] == bookings[..n];
    } else {
      ExpiredBookingsUpdate(bookings[..n], i, b);
      assert bookings[i := b][..n] == bookings[..n][i := b];
    }
  }

  /** Whatever the batch and however many rows conflict. */
  lemma {:induction false} PollCountsExpired(db: Db, batch: seq<StaleRow>, times: seq<int>)
    requires |batch| == |times|
    ensures var r := Poll(db, batch, times);
            ExpiredBookings(r.db.bookings) == ExpiredBookings(db.bookings) + r.expired
    decreases |batch|
  {
    if batch != [] {
      var n := |batch| - 1;
      PollCountsExpired(db, batch[..n], times[..n]);
      var before := Poll(db, batch[..n], times[..n]).db;
      match ExpireTx(before, batch[n], times[n])
      case Ok(Some(after)) =>
        ExpiredBookingsUpdate(before.bookings, batch[n].id, after.bookings[batch[n].id]);
      case Ok(None) =>
      case Err(_) =>
    }
  }

  // ---------- a poll nobody interferes with ----------

  function AsExpired(b: Booking): Booking {
    b.(status := EXPIRED, reservedUntil := None)
  }

  predicate SameGaps(db: Db, after: Db) {
    |after.slots| == |db.slots| && forall s :: 0 <= s < |db.slots| ==> Gap(after, s) == Gap(db, s)
  }

  lemma InBatchAppend(batch: seq<StaleRow>, row: StaleRow, b: nat)
    ensures InBatch(batch + [row], b) <==> InBatch(batch, b) || row.id == b
  {
    if row.id == b { assert (batch + [row])[|batch|].id == b; }
    if InBatch(batch, b) {
      var k :| 0 <= k < |batch| && batch[k].id == b;
      assert (batch + [row])[k].id == b;
    }
  }

  /** Bookings outside the batch are as before.  A row of the batch expired or is as before, and it did expire if its
      slot counts its active seats. */
  predicate RowsDone(db: Db, after: Db, batch: seq<StaleRow>) {
    && |after.bookings| == |db.bookings|
    && forall b :: 0 <= b < |db.bookings| ==> RowDone(db, after, batch, b)
  }

  predicate RowDone(db: Db, after: Db, batch: seq<StaleRow>, b: nat)
    requires b < |db.bookings| == |after.bookings|
  {
    && (!InBatch(batch, b) ==> after.bookings[b] == db.bookings[b])
    && (after.bookings[b] == db.bookings[b] || after.bookings[b] == AsExpired(db.bookings[b]))
    && (InBatch(batch, b) && SlotCovered(db, db.bookings[b].slotId) ==> after.bookings[b] == AsExpired(db.bookings[b]))
  }

  lemma PollStep(db: Db, batch: seq<StaleRow>, times: seq<int>)
    requires |batch| == |times| && batch != []
    ensures var n := |batch| - 1;
            var before := Poll(db, batch[..n], times[..n]);
            Poll(db, batch, times).db == ExpireDb(before.db, batch[n], times[n])
  {
  }

  /** One row changes no booking but its own and no slot's gap, and expires if the slot has its seats. */
  lemma ExpireRow(db: Db, id: nat, now: int)
    requires WellFormed(db) && id < |db.bookings| && IsOverdue(db.bookings[id], now)
    ensures var after := ExpireDb(db, SelectStale(db.bookings, id), now);
            var b := db.bookings[id];
            && WellFormed(after) && SameGaps(db, after) && b.slotId < |db.slots|
            && after.bookings == (if db.slots[b.slotId].reserved >= b.partySize then db.bookings[id := AsExpired(b)]
                                  else db.bookings)
  {
    ExpireEvolves(db, id, now);
    assert BookingWellFormed(db, db.bookings[id]);
    forall s | 0 <= s < |db.slots|
      ensures Gap(ExpireDb(db, SelectStale(db.bookings, id), now), s) == Gap(db, s)
    {
      ExpireAccounting(db, id, now, s);
    }
  }

  lemma RowStep(db: Db, before: Db, front: seq<StaleRow>, row: StaleRow, at: int)
    requires WellFormed(before) && SameGaps(db, before) && RowsDone(db, before, front)
    requires row.id < |before.bookings| && !InBatch(front, row.id)
    requires row == SelectStale(before.bookings, row.id) && IsOverdue(before.bookings[row.id], at)
    ensures var after := ExpireDb(before, row, at);
            WellFormed(after) && SameGaps(db, after) && RowsDone(db, after, front + [row])
  {
    var after, slotId := ExpireDb(before, row, at), before.bookings[row.id].slotId;
    ExpireRow(before, row.id, at);
    assert RowDone(db, before, front, row.id);
    if SlotCovered(db, slotId) {
      assert Gap(before, slotId) == Gap(db, slotId);
      ReservedCovers(before, row.id);
    }
    forall b | 0 <= b < |db.bookings|
      ensures RowDone(db, after, front + [row], b)
    {
      assert RowDone(db, before, front, b);
      InBatchAppend(front, row, b);
    }
  }

  lemma StaleRowsFront(bookings: seq<Booking>, now: int, batch: seq<StaleRow>)
    requires StaleRows(bookings, now, batch) && batch != []
    ensures StaleRows(bookings, now, batch[..|batch| - 1])
    ensures !InBatch(batch[..|batch| - 1], batch[|batch| - 1].id)
  {
  }

  /** A row fetched as overdue that the rest of the batch leaves alone is as it was fetched. */
  lemma LastUntouched(db: Db, before: Db, now: int, batch: seq<StaleRow>, at: int)
    requires StaleRows(db.bookings, now, batch) && batch != [] && now <= at
    requires RowsDone(db, before, batch[..|batch| - 1])
    ensures var row := batch[|batch| - 1];
            && row.id < |before.bookings| == |db.bookings| && before.bookings[row.id] == db.bookings[row.id]
            && row == SelectStale(before.bookings, row.id) && IsOverdue(before.bookings[row.id], at)
  {
    StaleRowsFront(db.bookings, now, batch);
    assert RowDone(db, before, batch[..|batch| - 1], batch[|batch| - 1].id);
  }

  /** No row's failure touches another: whatever happens on slots that have lost their seats, every row on a slot
      that counts its active seats expires, nothing outside the batch changes, and every slot is released to match. */
  lemma {:induction false} PollRowsApart(db: Db, batch: seq<StaleRow>, times: seq<int>, now: int)
    requires WellFormed(db) && |batch| == |times| && StaleRows(db.bookings, now, batch)
    requires forall k :: 0 <= k < |times| ==> now <= times[k]
    ensures var after := Poll(db, batch, times).db;
            WellFormed(after) && SameGaps(db, after) && RowsDone(db, after, batch)
    decreases |batch|
  {
    if batch != [] {
      var n := |batch| - 1;
      var before := Poll(db, batch[..n], times[..n]).db;
      StaleRowsFront(db.bookings, now, batch);
      PollRowsApart(db, batch[..n], times[..n], now);
      LastUntouched(db, before, now, batch, times[n]);
      RowStep(db, before, batch[..n], batch[n], times[n]);
      PollStep(db, batch, times);
      assert batch[..n] + [batch[n]] == batch;
    }
  }

  /** A row's turn comes: its booking is as it was fetched, and overdue. */
  predicate Turn(db: Db, before: Db, row: StaleRow, at: int) {
    && WellFormed(before) && SameGaps(db, before)
    && row.id < |before.bookings| == |db.bookings| && before.bookings[row.id] == db.bookings[row.id]
    && row == SelectStale(before.bookings, row.id) && IsOverdue(before.bookings[row.id], at)
  }

  /** What becomes of booking `id` between two states: it expired if its slot had its seats, else it is as before. */
  predicate Fate(before: Db, after: Db, id: nat) {
    && id < |before.bookings| == |after.bookings|
    && var b := before.bookings[id];
    && b.slotId < |before.slots|
    && after.bookings[id] == if before.slots[b.slotId].reserved >= b.partySize then AsExpired(b) else b
  }

  predicate OnlyTouches(before: Db, after: Db, id: nat) {
    && |after.bookings| == |before.bookings|
    && forall b :: 0 <= b < |before.bookings| && b != id ==> after.bookings[b] == before.bookings[b]
  }

  lemma TurnTaken(db: Db, before: Db, row: StaleRow, at: int)
    requires Turn(db, before, row, at)
    ensures Fate(before, ExpireDb(before, row, at), row.id) && OnlyTouches(before, ExpireDb(before, row, at), row.id)
  {
    ExpireRow(before, row.id, at);
  }

  lemma LastTurn(db: Db, batch: seq<StaleRow>, times: seq<int>, now: int)
    requires WellFormed(db) && |batch| == |times| && StaleRows(db.bookings, now, batch) && batch != []
    requires forall i :: 0 <= i < |times| ==> now <= times[i]
    ensures var n := |batch| - 1; Turn(db, Poll(db, batch[..n], times[..n]).db, batch[n], times[n])
  {
    var n := |batch| - 1;
    StaleRowsFront(db.bookings, now, batch);
    PollRowsApart(db, batch[..n], times[..n], now);
    LastUntouched(db, Poll(db, batch[..n], times[..n]).db, now, batch, times[n]);
  }

  lemma FateKept(before: Db, middle: Db, after: Db, id: nat, other: nat)
    requires Fate(before, middle, id) && OnlyTouches(middle, after, other) && id != other
    ensures Fate(before, after, id)
  {
  }

  lemma LastFate(db: Db, batch: seq<StaleRow>, times: seq<int>, now: int)
    requires WellFormed(db) && |batch| == |times| && StaleRows(db.bookings, now, batch) && batch != []
    requires forall i :: 0 <= i < |times| ==> now <= times[i]
    ensures var n := |batch| - 1;
            var before, after := Poll(db, batch[..n], times[..n]).db, Poll(db, batch, times).db;
            Fate(before, after, batch[n].id) && OnlyTouches(before, after, batch[n].id)
  {
    var n := |batch| - 1;
    LastTurn(db, batch, times, now);
    TurnTaken(db, Poll(db, batch[..n], times[..n]).db, batch[n], times[n]);
    PollStep(db, batch, times);
  }

  /** The database after the first m rows. */
  function AfterRows(db: Db, batch: seq<StaleRow>, times: seq<int>, m: nat): Db
    requires m <= |batch| == |times|
  {
    Poll(db, batch[..m], times[..m]).db
  }

  /** The m-th turn, and nothing but its own booking touched. */
  lemma FateAt(db: Db, batch: seq<StaleRow>, times: seq<int>, now: int, m: nat)
    requires WellFormed(db) && |batch| == |times| && StaleRows(db.bookings, now, batch) && m < |batch|
    requires forall i :: 0 <= i < |times| ==> now <= times[i]
    ensures Fate(AfterRows(db, batch, times, m), AfterRows(db, batch, times, m + 1), batch[m].id)
    ensures OnlyTouches(AfterRows(db, batch, times, m), AfterRows(db, batch, times, m + 1), batch[m].id)
  {
    assert batch[..m + 1][..m] == batch[..m] && times[..m + 1][..m] == times[..m];
    LastFate(db, batch[..m + 1], times[..m + 1], now);
  }

  lemma {:induction false} FateAfter(db: Db, batch: seq<StaleRow>, times: seq<int>, now: int, k: nat, m: nat)
    requires WellFormed(db) && |batch| == |times| && StaleRows(db.bookings, now, batch) && k < m <= |batch|
    requires forall i :: 0 <= i < |times| ==> now <= times[i]
    ensures Fate(AfterRows(db, batch, times, k), AfterRows(db, batch, times, m), batch[k].id)
    decreases m
  {
    FateAt(db, batch, times, now, m - 1);
    if k + 1 < m {
      FateAfter(db, batch, times, now, k, m - 1);
      FateKept(AfterRows(db, batch, times, k), AfterRows(db, batch, times, m - 1), AfterRows(db, batch, times, m),
               batch[k].id, batch[m - 1].id);
    }
  }

  /** Row k expires exactly if, when its turn comes, its slot still has its seats. */
  lemma RowExpiresIff(db: Db, batch: seq<StaleRow>, times: seq<int>, now: int, k: nat)
    requires WellFormed(db) && |batch| == |times| && StaleRows(db.bookings, now, batch) && k < |batch|
    requires forall i :: 0 <= i < |times| ==> now <= times[i]
    ensures Fate(AfterRows(db, batch, times, k), Poll(db, batch, times).db, batch[k].id)
  {
    FateAfter(db, batch, times, now, k, |batch|);
    assert batch[..|batch|] == batch && times[..|times|] == times;
  }

  /** Exactly the rows of the batch are expired. */
  predicate ExpiresBatch(before: seq<Booking>, after: seq<Booking>, batch: seq<StaleRow>) {
    && |after| == |before|
    && forall b :: 0 <= b < |before| ==>
         after[b] == if InBatch(batch, b) then AsExpired(before[b]) else before[b]
  }

  lemma AllRowsDone(db: Db, after: Db, batch: seq<StaleRow>)
    requires WellFormed(db) && Covered(db) && SameGaps(db, after) && RowsDone(db, after, batch)
    ensures Covered(after) && ExpiresBatch(db.bookings, after.bookings, batch)
  {
    forall b | 0 <= b < |db.bookings|
      ensures after.bookings[b] == if InBatch(batch, b) then AsExpired(db.bookings[b]) else db.bookings[b]
    {
      assert RowDone(db, after, batch, b) && BookingWellFormed(db, db.bookings[b]);
      assert Gap(db, db.bookings[b].slotId) <= 0;
    }
    forall s | 0 <= s < |after.slots| ensures Gap(after, s) <= 0 {
      assert Gap(after, s) == Gap(db, s);
    }
  }

  lemma QuietTurn(db: Db, before: Db, row: StaleRow, at: int)
    requires Covered(db) && Turn(db, before, row, at)
    ensures ExpireTx(before, row, at).Ok? && ExpireTx(before, row, at).value.Some?
  {
    var slotId := before.bookings[row.id].slotId;
    assert BookingWellFormed(before, before.bookings[row.id]);
    assert Gap(before, slotId) == Gap(db, slotId) <= 0;
    ExpireSucceeds(before, row.id, at);
  }

  lemma PollLast(db: Db, batch: seq<StaleRow>, times: seq<int>)
    requires |batch| == |times| && batch != []
    requires var n := |batch| - 1;
             var r := ExpireTx(Poll(db, batch[..n], times[..n]).db, batch[n], times[n]);
             r.Ok? && r.value.Some?
    ensures Poll(db, batch, times).expired == Poll(db, batch[..|batch| - 1], times[..|batch| - 1]).expired + 1
  {
  }

  /** With every slot counting its seats every row expires, nothing else changes, the slots are released to match,
      and the poll returns the number of rows. */
  lemma {:induction false} QuietPoll(db: Db, batch: seq<StaleRow>, times: seq<int>, now: int)
    requires WellFormed(db) && Covered(db) && |batch| == |times|
    requires StaleRows(db.bookings, now, batch)
    requires forall k :: 0 <= k < |times| ==> now <= times[k]
    ensures var after := Poll(db, batch, times).db;
            && WellFormed(after) && Covered(after) && SameGaps(db, after)
            && ExpiresBatch(db.bookings, after.bookings, batch)
    ensures Poll(db, batch, times).expired == |batch|
    decreases |batch|
  {
    PollRowsApart(db, batch, times, now);
    AllRowsDone(db, Poll(db, batch, times).db, batch);
    if batch != [] {
      StaleRowsFront(db.bookings, now, batch);
      QuietPoll(db, batch[..|batch| - 1], times[..|batch| - 1], now);
      LastTurn(db, batch, times, now);
      QuietTurn(db, Poll(db, batch[..|batch| - 1], times[..|batch| - 1]).db, batch[|batch| - 1], times[|batch| - 1]);
      PollLast(db, batch, times);
    }
  }

  // ---------- oldest first ----------

  /** Bookings whose hold had lapsed at time t. */
  function Overdue(bookings: seq<Booking>, t: int): set<nat> {
    set b | 0 <= b < |bookings| && IsOverdue(bookings[b], t)
  }

  function Ids(batch: seq<StaleRow>): set<nat> {
    set k | 0 <= k < |batch| :: batch[k].id
  }

  lemma {:induction false} IdsCardinality(batch: seq<StaleRow>)
    requires forall j, k :: 0 <= j < k < |batch| ==> batch[j].id != batch[k].id
    ensures |Ids(batch)| == |batch|
  {
    if batch != [] {
      var n := |batch| - 1;
      IdsCardinality(batch[..n]);
      assert Ids(batch) == Ids(batch[..n]) + {batch[n].id};
    }
  }

  function AtLeastZero(n: int): nat {
    if n < 0 then 0 else n
  }

  lemma OverdueAfterPoll(before: seq<Booking>, after: seq<Booking>, batch: seq<StaleRow>, t: int)
    requires ExpiresBatch(before, after, batch)
    ensures Overdue(after, t) == Overdue(before, t) - Ids(batch)
  {
  }

  /** A batch that leaves out a hold lapsed at t is full, and holds nothing that lapsed later. */
  lemma OldestFirst(bookings: seq<Booking>, now: int, batch: seq<StaleRow>, t: int, left: nat)
    requires IsStaleBatch(bookings, now, batch) && t <= now
    requires left in Overdue(bookings, t) && left !in Ids(batch)
    ensures |batch| == EXPIRY_BATCH_SIZE && Ids(batch) <= Overdue(bookings, t)
  {
  }

  lemma TakeAway(all: set<nat>, some: set<nat>)
    ensures some <= all ==> |all - some| == |all| - |some|
    ensures all <= some ==> |all - some| == 0 && |all| <= |some|
  {
  }

  /** One poll takes exactly the next 50 of the holds that had lapsed at an earlier time t, or all that are left. */
  lemma PollDrains(db: Db, batch: seq<StaleRow>, times: seq<int>, now: int, t: int)
    requires WellFormed(db) && Covered(db) && |batch| == |times| && t <= now
    requires IsStaleBatch(db.bookings, now, batch)
    requires forall k :: 0 <= k < |times| ==> now <= times[k]
    ensures var after := Poll(db, batch, times).db;
            |Overdue(after.bookings, t)| == AtLeastZero(|Overdue(db.bookings, t)| - 50)
  {
    QuietPoll(db, batch, times, now);
    var before, ids := Overdue(db.bookings, t), Ids(batch);
    OverdueAfterPoll(db.bookings, Poll(db, batch, times).db.bookings, batch, t);
    IdsCardinality(batch);
    TakeAway(before, ids);
    if !(before <= ids) {
      var left :| left in before && left !in ids;
      OldestFirst(db.bookings, now, batch, t, left);
    }
  }

  // ---------- runs of clock and poller only ----------

  datatype PollEvent = PollEvent(now: int, batch: seq<StaleRow>, times: seq<int>)

  /** Only the clock and the poller run, from time t on. */
  predicate IsPollRun(dbs: seq<Db>, polls: seq<PollEvent>, t: int) {
    && |dbs| == |polls| + 1
    && (forall k :: 0 <= k < |polls| ==> PollAt(dbs, polls, k, t))
  }

  predicate PollAt(dbs: seq<Db>, polls: seq<PollEvent>, k: nat, t: int)
    requires k < |polls| < |dbs|
  {
    && |polls[k].batch| == |polls[k].times|
    && t <= polls[k].now
    && (forall i :: 0 <= i < |polls[k].times| ==> polls[k].now <= polls[k].times[i])
    && IsStaleBatch(dbs[k].bookings, polls[k].now, polls[k].batch)
    && dbs[k + 1] == Poll(dbs[k], polls[k].batch, polls[k].times).db
  }

  /** After k polls exactly 50k of the holds that had lapsed at t are gone, each of them EXPIRED and released,
      however many more lapsed later. */
  lemma {:induction false} PollsDrainOldestFirst(dbs: seq<Db>, polls: seq<PollEvent>, t: int, k: nat)
    requires IsPollRun(dbs, polls, t) && k < |dbs|
    requires WellFormed(dbs[0]) && Covered(dbs[0])
    ensures WellFormed(dbs[k]) && Covered(dbs[k])
    ensures |Overdue(dbs[k].bookings, t)| == AtLeastZero(|Overdue(dbs[0].bookings, t)| - 50 * k)
    ensures SameGaps(dbs[0], dbs[k]) && |dbs[k].bookings| == |dbs[0].bookings|
    ensures forall b :: 0 <= b < |dbs[0].bookings| ==>
              dbs[k].bookings[b] == dbs[0].bookings[b] || dbs[k].bookings[b] == AsExpired(dbs[0].bookings[b])
  {
    if k > 0 {
      PollsDrainOldestFirst(dbs, polls, t, k - 1);
      var p := polls[k - 1];
      assert PollAt(dbs, polls, k - 1, t);
      PollDrains(dbs[k - 1], p.batch, p.times, p.now, t);
      QuietPoll(dbs[k - 1], p.batch, p.times, p.now);
    }
  }

  /** Every poll of such a run returns the number of rows it fetched. */
  lemma PollsReturnFetched(dbs: seq<Db>, polls: seq<PollEvent>, t: int, k: nat)
    requires IsPollRun(dbs, polls, t) && k < |polls| && WellFormed(dbs[0]) && Covered(dbs[0])
    ensures |polls[k].batch| == |polls[k].times|
    ensures Poll(dbs[k], polls[k].batch, polls[k].times).expired == |polls[k].batch|
  {
    PollsDrainOldestFirst(dbs, polls, t, k);
    assert PollAt(dbs, polls, k, t);
    QuietPoll(dbs[k], polls[k].batch, polls[k].times, polls[k].now);
  }

  /** ceil(n / 50) polls expire all n holds that had lapsed at t. */
  lemma AllExpireInTime(dbs: seq<Db>, polls: seq<PollEvent>, t: int, b: nat)
    requires IsPollRun(dbs, polls, t) && WellFormed(dbs[0]) && Covered(dbs[0])
    requires |Overdue(dbs[0].bookings, t)| <= 50 * |polls|
    requires b in Overdue(dbs[0].bookings, t)
    ensures b < |dbs[|polls|].bookings|
    ensures dbs[|polls|].bookings[b] == AsExpired(dbs[0].bookings[b])
  {
    PollsDrainOldestFirst(dbs, polls, t, |polls|);
    assert b !in Overdue(dbs[|polls|].bookings, t);
  }
}
