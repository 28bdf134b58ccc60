/**
  Theorems about whole runs of the protocol, over every interleaving.
 */
module Runs {
  import opened Wrappers
  import opened BookingState
  import opened Tables
  import opened Transactions
  import opened Evolution
  import opened Protocol

  predicate IsRun(states: seq<State>, steps: seq<Step>) {
    && |states| == |steps| + 1
    && (forall k :: 0 <= k < |steps| ==> StepAt(states, steps, k))
  }

  predicate StepAt(states: seq<State>, steps: seq<Step>, k: nat)
    requires k < |steps| < |states|
  {
    Enabled(states[k], steps[k]) && states[k + 1] == Next(states[k], steps[k])
  }

  predicate IsRunFromStart(states: seq<State>, steps: seq<Step>) {
    IsRun(states, steps) && Start(states[0])
  }

  lemma {:induction false} RunInvariant(states: seq<State>, steps: seq<Step>, k: nat)
    requires IsRunFromStart(states, steps) && k < |states|
    ensures Inv(states[k])
  {
    if k > 0 {
      RunInvariant(states, steps, k - 1);
      assert StepAt(states, steps, k - 1);
      StepInvariant(states[k - 1], steps[k - 1]);
    }
  }

  lemma StepEvolves(states: seq<State>, steps: seq<Step>, k: nat)
    requires IsRunFromStart(states, steps) && k < |steps|
    ensures Evolves(states[k].db, states[k + 1].db)
  {
    RunInvariant(states, steps, k);
    assert StepAt(states, steps, k);
    StepInvariant(states[k], steps[k]);
  }

  lemma {:induction false} RunEvolves(states: seq<State>, steps: seq<Step>, i: nat, j: nat)
    requires IsRunFromStart(states, steps) && i <= j < |states|
    ensures Evolves(states[i].db, states[j].db)
    decreases j
  {
    if i < j {
      RunEvolves(states, steps, i, j - 1);
      StepEvolves(states, steps, j - 1);
      EvolvesTransitive(states[i].db, states[j - 1].db, states[j].db);
    }
  }

  // ---------- exact accounting ----------

  predicate LateBefore(states: seq<State>, steps: seq<Step>, k: nat, slotId: nat)
    requires k <= |steps| <= |states|
  {
    exists m :: 0 <= m < k && LateConfirmOn(states[m], steps[m], slotId)
  }

  lemma LateBeforeStep(states: seq<State>, steps: seq<Step>, k: nat, slotId: nat)
    requires k < |steps| < |states|
    ensures LateBefore(states, steps, k + 1, slotId)
       <==> LateBefore(states, steps, k, slotId) || LateConfirmOn(states[k], steps[k], slotId)
  {
  }

  lemma StepAtAccounting(states: seq<State>, steps: seq<Step>, k: nat, slotId: nat)
    requires IsRunFromStart(states, steps) && k < |steps| && slotId < |states[k].db.slots| == |states[k].late|
    ensures |states[k + 1].db.slots| == |states[k].db.slots| == |states[k + 1].late|
    ensures Gap(states[k + 1].db, slotId) - states[k + 1].late[slotId]
        == Gap(states[k].db, slotId) - states[k].late[slotId]
    ensures if LateConfirmOn(states[k], steps[k], slotId) then states[k + 1].late[slotId] > states[k].late[slotId]
            else states[k + 1].late[slotId] == states[k].late[slotId]
  {
    RunInvariant(states, steps, k);
    assert StepAt(states, steps, k);
    StepAccounting(states[k], steps[k], slotId);
  }

  /** Over every interleaving, seats held minus seats counted minus late seats never changes. */
  lemma {:induction false} ExactAccounting(states: seq<State>, steps: seq<Step>, k: nat, slotId: nat)
    requires IsRunFromStart(states, steps) && k < |states| && slotId < |states[0].db.slots|
    ensures |states[k].db.slots| == |states[0].db.slots| == |states[k].late|
    ensures Gap(states[k].db, slotId) - states[k].late[slotId] == Gap(states[0].db, slotId)
    ensures states[k].late[slotId] >= 0
    ensures states[k].late[slotId] == 0 <==> !LateBefore(states, steps, k, slotId)
  {
    if k > 0 {
      ExactAccounting(states, steps, k - 1, slotId);
      StepAtAccounting(states, steps, k - 1, slotId);
      LateBeforeStep(states, steps, k - 1, slotId);
    }
  }

  /** Seats are conserved on a slot exactly if no confirm has landed late on it. */
  lemma ConservationIff(states: seq<State>, steps: seq<Step>, k: nat, slotId: nat)
    requires IsRunFromStart(states, steps) && k < |states| && slotId < |states[0].db.slots| == |states[k].db.slots|
    ensures Gap(states[k].db, slotId) == Gap(states[0].db, slotId) <==> !LateBefore(states, steps, k, slotId)
  {
    ExactAccounting(states, steps, k, slotId);
  }

  // ---------- no overbooking ----------

  lemma {:induction false} ReservedWithinCapacity(states: seq<State>, steps: seq<Step>, k: nat)
    requires IsRunFromStart(states, steps) && k < |states| && WithinCapacity(states[0].db)
    ensures WithinCapacity(states[k].db)
  {
    if k > 0 {
      ReservedWithinCapacity(states, steps, k - 1);
      RunInvariant(states, steps, k - 1);
      assert StepAt(states, steps, k - 1);
      StepWithinCapacity(states[k - 1], steps[k - 1]);
    }
  }

  /** No slot is sold beyond its capacity, unless a confirm landed late on it. */
  lemma NoOverbooking(states: seq<State>, steps: seq<Step>, k: nat, slotId: nat)
    requires IsRunFromStart(states, steps) && k < |states| && slotId < |states[0].db.slots| == |states[k].db.slots|
    requires WithinCapacity(states[0].db) && Gap(states[0].db, slotId) <= 0
    requires !LateBefore(states, steps, k, slotId)
    ensures 0 <= states[k].db.slots[slotId].reserved <= states[k].db.slots[slotId].capacity
    ensures ActiveSum(states[k].db.bookings, slotId) <= states[k].db.slots[slotId].capacity
  {
    ReservedWithinCapacity(states, steps, k);
    ExactAccounting(states, steps, k, slotId);
  }

  lemma CoveredThroughout(states: seq<State>, steps: seq<Step>, k: nat)
    requires IsRunFromStart(states, steps) && k < |states| && Covered(states[0].db)
    requires forall s :: 0 <= s < |states[0].db.slots| ==> !LateBefore(states, steps, k, s)
    ensures Covered(states[k].db)
  {
    RunEvolves(states, steps, 0, k);
    forall s | 0 <= s < |states[k].db.slots|
      ensures Gap(states[k].db, s) <= 0
    {
      ExactAccounting(states, steps, k, s);
      assert Gap(states[0].db, s) <= 0;
    }
  }

  // ---------- the version is a change witness ----------

  /** Step m takes some booking of the slot to CANCELLED or EXPIRED. */
  predicate ReleasesOn(states: seq<State>, m: nat, b: nat, slotId: nat)
    requires m + 1 < |states|
  {
    && b < |states[m].db.bookings| <= |states[m + 1].db.bookings|
    && states[m].db.bookings[b].slotId == slotId
    && IsFinal(states[m + 1].db.bookings[b].status)
    && states[m].db.bookings[b].status != states[m + 1].db.bookings[b].status
  }

  /** If a slot shows the same version at two points of a run then, throughout, its row did not change,
      it gained no booking, and none of its bookings became CANCELLED or EXPIRED. */
  lemma VersionWitness(states: seq<State>, steps: seq<Step>, i: nat, m: nat, j: nat, slotId: nat)
    requires IsRunFromStart(states, steps) && i <= m < j < |states|
    requires slotId < |states[i].db.slots| && slotId < |states[m].db.slots| && slotId < |states[j].db.slots|
    requires states[i].db.slots[slotId].version == states[j].db.slots[slotId].version
    ensures states[m].db.slots[slotId] == states[i].db.slots[slotId] == states[j].db.slots[slotId]
    ensures forall b: nat :: !ReleasesOn(states, m, b, slotId)
    ensures forall b :: |states[i].db.bookings| <= b < |states[j].db.bookings|
                    ==> states[j].db.bookings[b].slotId != slotId
  {
    RunEvolves(states, steps, i, m);
    RunEvolves(states, steps, m, m + 1);
    RunEvolves(states, steps, m + 1, j);
    RunEvolves(states, steps, i, j);
    assert SlotEvolves(states[i].db.slots[slotId], states[m].db.slots[slotId]);
    assert SlotEvolves(states[m].db.slots[slotId], states[m + 1].db.slots[slotId]);
    assert SlotEvolves(states[m + 1].db.slots[slotId], states[j].db.slots[slotId]);
    forall b: nat | b < |states[m].db.bookings| <= |states[m + 1].db.bookings|
      ensures !ReleasesOn(states, m, b, slotId)
    {
      assert KeepsHold(states[m].db, states[m + 1].db, b);
    }
    forall b | |states[i].db.bookings| <= b < |states[j].db.bookings|
      ensures states[j].db.bookings[b].slotId != slotId
    {
      assert NewBookingMovedVersion(states[i].db, states[j].db, b);
    }
  }

  /** The request that commits at step k, when it is a create or a cancel. */
  predicate SlotChangeAt(states: seq<State>, steps: seq<Step>, k: nat, slotId: nat, version: int)
    requires k < |steps| < |states|
  {
    && CommitsNow(states[k], steps[k])
    && var p := states[k].pending[steps[k].rid];
    !p.PendingConfirm? && p.slotId == slotId && p.version == version
  }

  lemma SlotChangeMovesVersion(states: seq<State>, steps: seq<Step>, k: nat, slotId: nat, version: int)
    requires IsRunFromStart(states, steps) && k < |steps| && SlotChangeAt(states, steps, k, slotId, version)
    ensures slotId < |states[k].db.slots| == |states[k + 1].db.slots|
    ensures states[k].db.slots[slotId].version == version
    ensures states[k + 1].db.slots[slotId].version == version + 1
  {
    RunInvariant(states, steps, k);
    assert StepAt(states, steps, k);
    assert PendingOk(states[k].db, states[k].pending[steps[k].rid]);
  }

  /** Slot changes commit in the order of the versions their requests read. */
  lemma SlotChangesInVersionOrder(
    states: seq<State>, steps: seq<Step>, k1: nat, v1: int, k2: nat, v2: int, slotId: nat)
    requires IsRunFromStart(states, steps) && k1 < k2 < |steps|
    requires SlotChangeAt(states, steps, k1, slotId, v1) && SlotChangeAt(states, steps, k2, slotId, v2)
    ensures v1 < v2
  {
    SlotChangeMovesVersion(states, steps, k1, slotId, v1);
    SlotChangeMovesVersion(states, steps, k2, slotId, v2);
    RunEvolves(states, steps, k1 + 1, k2);
    assert SlotEvolves(states[k1 + 1].db.slots[slotId], states[k2].db.slots[slotId]);
  }

  /** Of all creates and cancels that read the same version of a slot, at most one commits. */
  lemma AtMostOneSlotChange(states: seq<State>, steps: seq<Step>, k1: nat, k2: nat, slotId: nat, version: int)
    requires IsRunFromStart(states, steps) && k1 < |steps| && k2 < |steps|
    requires SlotChangeAt(states, steps, k1, slotId, version) && SlotChangeAt(states, steps, k2, slotId, version)
    ensures k1 == k2
  {
    if k1 < k2 {
      SlotChangesInVersionOrder(states, steps, k1, version, k2, version, slotId);
    } else if k2 < k1 {
      SlotChangesInVersionOrder(states, steps, k2, version, k1, version, slotId);
    }
  }

  // ---------- no spurious conflict ----------

  predicate IsRead(step: Step, rid: nat) {
    (step.ReadForCreate? || step.ReadForConfirm? || step.ReadForCancel?) && step.rid == rid
  }

  /** Request `rid` read at step r and has been waiting ever since. */
  predicate WaitsFrom(states: seq<State>, steps: seq<Step>, r: nat, k: nat, rid: nat)
    requires |states| == |steps| + 1
  {
    r < k < |states| && IsRead(steps[r], rid) && (forall m :: r < m <= k ==> rid in states[m].pending)
  }

  /** It keeps what it read, which was current when it read. */
  lemma {:induction false} WaitingKeeps(states: seq<State>, steps: seq<Step>, r: nat, k: nat, rid: nat)
    requires IsRunFromStart(states, steps) && WaitsFrom(states, steps, r, k, rid)
    ensures var p := states[k].pending[rid];
            !p.PendingConfirm? ==> p.slotId < |states[r].db.slots| && p.version == states[r].db.slots[p.slotId].version
    ensures states[k].pending[rid] == states[r + 1].pending[rid]
  {
    assert StepAt(states, steps, k - 1);
    if r + 1 < k {
      WaitingKeeps(states, steps, r, k - 1, rid);
    }
  }

  lemma SlotsThroughout(states: seq<State>, steps: seq<Step>, i: nat, j: nat)
    requires IsRunFromStart(states, steps) && i < |states| && j < |states|
    ensures |states[i].db.slots| == |states[j].db.slots|
  {
    RunEvolves(states, steps, 0, i);
    RunEvolves(states, steps, 0, j);
  }

  /** The version stands still exactly if the slot does. */
  lemma VersionStandsIff(states: seq<State>, steps: seq<Step>, r: nat, k: nat, slotId: nat)
    requires IsRunFromStart(states, steps) && r < k < |states|
    requires forall m :: 0 <= m < |states| ==> slotId < |states[m].db.slots|
    ensures states[r].db.slots[slotId].version == states[k].db.slots[slotId].version
       <==> forall m :: r <= m < k ==> states[m].db.slots[slotId] == states[m + 1].db.slots[slotId]
  {
    if states[r].db.slots[slotId].version == states[k].db.slots[slotId].version {
      forall m | r <= m < k ensures states[m].db.slots[slotId] == states[m + 1].db.slots[slotId] {
        VersionWitness(states, steps, r, m, k, slotId);
        if m + 1 < k { VersionWitness(states, steps, r, m + 1, k, slotId); }
      }
    } else if forall m :: r <= m < k ==> states[m].db.slots[slotId] == states[m + 1].db.slots[slotId] {
      SlotUnchanged(states, r, k, slotId);
    }
  }

  /** On a slot that counted its active seats at the start and has seen no late confirm, a waiting create or cancel
      commits exactly if the slot has not changed since it read (for a create, with a new reference). */
  lemma NoSpuriousConflict(states: seq<State>, steps: seq<Step>, r: nat, k: nat, slotId: nat)
    requires IsRunFromStart(states, steps) && k < |steps| && steps[k].CommitStep?
    requires WaitsFrom(states, steps, r, k, steps[k].rid)
    requires !states[k].pending[steps[k].rid].PendingConfirm?
    requires states[k].pending[steps[k].rid].slotId == slotId
    requires SlotCovered(states[0].db, slotId) && !LateBefore(states, steps, k, slotId)
    requires states[k].pending[steps[k].rid].PendingCreate? ==>
        !ReferenceTaken(states[k].db.bookings, steps[k].newReference)
    ensures forall m :: 0 <= m < |states| ==> slotId < |states[m].db.slots|
    ensures CommitsNow(states[k], steps[k])
       <==> forall m :: r <= m < k ==> states[m].db.slots[slotId] == states[m + 1].db.slots[slotId]
  {
    RunInvariant(states, steps, k);
    ExactAccounting(states, steps, k, slotId);
    CommitSucceedsIff(states[k].db, states[k].pending[steps[k].rid], steps[k].newReference);
    WaitingKeeps(states, steps, r, k, steps[k].rid);
    forall m | 0 <= m < |states| ensures slotId < |states[m].db.slots| {
      SlotsThroughout(states, steps, 0, m);
    }
    VersionStandsIff(states, steps, r, k, slotId);
  }

  lemma {:induction false} SlotUnchanged(states: seq<State>, r: nat, k: nat, slotId: nat)
    requires r <= k < |states|
    requires forall m :: 0 <= m < |states| ==> slotId < |states[m].db.slots|
    requires forall m :: r <= m < k ==> states[m].db.slots[slotId] == states[m + 1].db.slots[slotId]
    ensures states[r].db.slots[slotId] == states[k].db.slots[slotId]
  {
    if r < k {
      SlotUnchanged(states, r, k - 1, slotId);
      assert states[k - 1].db.slots[slotId] == states[k - 1 + 1].db.slots[slotId];
    }
  }

  /** Nor does expiry ever conflict there: the worker's step always takes an overdue booking. */
  lemma ExpiryNeverConflicts(states: seq<State>, steps: seq<Step>, k: nat, id: nat)
    requires IsRunFromStart(states, steps) && k < |steps| && steps[k] == ExpireStep(id)
    requires id < |states[k].db.bookings| && IsOverdue(states[k].db.bookings[id], states[k].now)
    requires SlotCovered(states[0].db, states[k].db.bookings[id].slotId)
    requires !LateBefore(states, steps, k, states[k].db.bookings[id].slotId)
    ensures id < |states[k + 1].db.bookings| && states[k + 1].db.bookings[id].status == EXPIRED
  {
    RunInvariant(states, steps, k);
    assert StepAt(states, steps, k);
    ExactAccounting(states, steps, k, states[k].db.bookings[id].slotId);
    ExpireSucceeds(states[k].db, id, states[k].now);
  }
}
