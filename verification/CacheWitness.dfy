/**
  The conditions on hits are needed: two runs in which a stale answer is served, one
  because a fill that read before a slot change lands after the invalidation, one
  because the invalidation ran before the change committed, as expiry allows
  (src/services/booking.service.ts:430).
 */
module CacheWitness {
  import opened Wrappers
  import opened Tables
  import opened CacheProtocol

  function WitnessSlot(reserved: int): Slot {
    Slot("t", 0, Instant(0, 1), 2, reserved, 0)
  }

  const BEFORE := [WitnessSlot(0)]
  const AFTER := [WitnessSlot(1)]
  const ASKED := DetailOf("t", 0, Query(Filter(1, None, None, None), ""))

  function EarlyEntry(): Entry {
    Entry(ASKED, Fresh(ASKED, BEFORE), 0)
  }

  function Started(invalidations: map<nat, Invalidation>): State {
    State([BEFORE], map[], map[], invalidations)
  }

  function Waiting(dbs: seq<seq<Slot>>, invalidations: map<nat, Invalidation>): State {
    State(dbs, map[], map[0 := EarlyEntry()], invalidations)
  }

  function Filled(n: Naming, dbs: seq<seq<Slot>>): State {
    State(dbs, map[n.text(ASKED) := EarlyEntry()], map[], map[])
  }

  const SCANNING := map[0 := Invalidation("t", {}, {})]

  lemma AnswersDiffer()
    ensures EarlyEntry().answer != Fresh(ASKED, AFTER)
  {
    assert Shows(ASKED, 0, WitnessSlot(0)) && Shows(ASKED, 0, WitnessSlot(1));
    assert 0 in EarlyEntry().answer && 0 in Fresh(ASKED, AFTER);
    assert EarlyEntry().answer[0].reserved != Fresh(ASKED, AFTER)[0].reserved;
  }

  // ---------- single steps ----------

  lemma ReadStep(n: Naming)
    ensures Enabled(n, Started(map[]), ReadMiss(0, ASKED))
    ensures Next(n, Started(map[]), ReadMiss(0, ASKED)) == Waiting([BEFORE], map[])
  {
    assert Current(Started(map[])) == BEFORE;
  }

  lemma ScanSteps(n: Naming, s: State)
    requires s.dbs != [] && s.cache == map[] && s.invalidations == map[]
    ensures Enabled(n, s, StartInvalidation(0, "t"))
    ensures Next(n, s, StartInvalidation(0, "t")) == s.(invalidations := SCANNING)
    ensures Enabled(n, s.(invalidations := SCANNING), EndInvalidation(0))
    ensures Next(n, s.(invalidations := SCANNING), EndInvalidation(0)) == s
  {
    assert (set text | text in s.cache && n.matches(text, "t")) == {};
    assert SCANNING - {0} == map[];
  }

  lemma CommitStep(n: Naming, s: State)
    requires s.dbs == [BEFORE]
    ensures Enabled(n, s, CommitSlots("t", AFTER))
    ensures Next(n, s, CommitSlots("t", AFTER)) == s.(dbs := [BEFORE, AFTER])
  {
    assert [BEFORE] + [AFTER] == [BEFORE, AFTER];
  }

  lemma LandStep(n: Naming, dbs: seq<seq<Slot>>)
    requires dbs != []
    ensures Enabled(n, Waiting(dbs, map[]), LandFill(0))
    ensures Next(n, Waiting(dbs, map[]), LandFill(0)) == Filled(n, dbs)
    ensures Enabled(n, Filled(n, dbs), ReadHit(ASKED)) && Next(n, Filled(n, dbs), ReadHit(ASKED)) == Filled(n, dbs)
  {
    var fills: map<nat, Entry> := map[0 := EarlyEntry()];
    assert fills - {0} == map[];
  }

  lemma RunsThrough(n: Naming, states: seq<State>, steps: seq<Step>)
    requires |steps| == 6 && |states| == 7
    requires states[0] == Started(map[])
    requires StepAt(n, states, steps, 0) && StepAt(n, states, steps, 1) && StepAt(n, states, steps, 2)
    requires StepAt(n, states, steps, 3) && StepAt(n, states, steps, 4) && StepAt(n, states, steps, 5)
    ensures IsRun(n, states, steps)
  {
  }

  lemma ServesStale(n: Naming, s: State)
    requires s == Filled(n, [BEFORE, AFTER])
    ensures n.text(ASKED) in s.cache && s.cache[n.text(ASKED)].answer != Fresh(ASKED, Current(s))
  {
    AnswersDiffer();
  }

  // ---------- a fill that lands late ----------

  function LateSteps(): seq<Step> {
    [ReadMiss(0, ASKED), CommitSlots("t", AFTER), StartInvalidation(0, "t"), EndInvalidation(0), LandFill(0),
     ReadHit(ASKED)]
  }

  function LateStates(n: Naming): seq<State> {
    var both := [BEFORE, AFTER];
    [Started(map[]), Waiting([BEFORE], map[]), Waiting(both, map[]), Waiting(both, SCANNING), Waiting(both, map[]),
     Filled(n, both), Filled(n, both)]
  }

  /** The invalidation starts after the commit, yet a fill that read before the commit lands after it, and is served. */
  lemma LateFillIsServed(n: Naming)
    ensures IsRun(n, LateStates(n), LateSteps())
    ensures LateSteps()[1].CommitSlots? && RunsBetween(LateStates(n), LateSteps(), 0, "t", 2, 3)
    ensures LateSteps()[5] == ReadHit(ASKED) && n.text(ASKED) in LateStates(n)[5].cache
    ensures LateStates(n)[5].cache[n.text(ASKED)].answer != Fresh(ASKED, Current(LateStates(n)[5]))
  {
    var both := [BEFORE, AFTER];
    ReadStep(n);
    CommitStep(n, Waiting([BEFORE], map[]));
    ScanSteps(n, Waiting(both, map[]));
    LandStep(n, both);
    RunsThrough(n, LateStates(n), LateSteps());
    ServesStale(n, LateStates(n)[5]);
  }

  // ---------- an invalidation that comes early ----------

  function EarlySteps(): seq<Step> {
    [StartInvalidation(0, "t"), EndInvalidation(0), ReadMiss(0, ASKED), LandFill(0), CommitSlots("t", AFTER),
     ReadHit(ASKED)]
  }

  function EarlyStates(n: Naming): seq<State> {
    [Started(map[]), Started(SCANNING), Started(map[]), Waiting([BEFORE], map[]), Filled(n, [BEFORE]),
     Filled(n, [BEFORE, AFTER]), Filled(n, [BEFORE, AFTER])]
  }

  /** An invalidation enqueued inside the transaction may finish before the transaction commits; then no fill needs
      to be late for a stale answer to be served. */
  lemma EarlyInvalidationIsNotEnough(n: Naming)
    ensures IsRun(n, EarlyStates(n), EarlySteps())
    ensures RunsBetween(EarlyStates(n), EarlySteps(), 0, "t", 0, 1) && EarlySteps()[4].CommitSlots?
    ensures EarlySteps()[5] == ReadHit(ASKED) && n.text(ASKED) in EarlyStates(n)[5].cache
    ensures EarlyStates(n)[5].cache[n.text(ASKED)].answer != Fresh(ASKED, Current(EarlyStates(n)[5]))
  {
    ScanSteps(n, Started(map[]));
    ReadStep(n);
    LandStep(n, [BEFORE]);
    LandStep(n, [BEFORE, AFTER]);
    CommitStep(n, Filled(n, [BEFORE]));
    RunsThrough(n, EarlyStates(n), EarlySteps());
    ServesStale(n, EarlyStates(n)[5]);
  }
}
