/**
  The cache against recomputation (src/lib/availability-cache.ts,
  src/services/experience.service.ts): reads that miss compute an answer and fill
  the cache later, slot changes commit, invalidations scan and delete, entries time
  out, all interleaved.  A search is taken on one database state.
 */
module CacheProtocol {
  import opened Wrappers
  import opened Tables
  import Cache

  // ---------- answers ----------

  /** The availability part of a query. */
  datatype Filter = Filter(partySize: int, startAt: Option<int>, endAt: Option<int>, slotId: Option<nat>)

  /** `rest` stands for everything else a query says: page, page size, sorting, destination, supplier, prices. */
  datatype Query = Query(filter: Filter, rest: string)

  datatype Question =
    | SearchFor(tenantId: string, query: Query)
    | DetailOf(tenantId: string, experienceId: nat, query: Query)

  predicate Shows(q: Question, s: nat, slot: Slot) {
    && slot.tenantId == q.tenantId
    && (q.DetailOf? ==> slot.experienceId == q.experienceId)
    && Spots(slot) >= q.query.filter.partySize
    && (q.query.filter.startAt.Some? ==> slot.startsAt.ms >= q.query.filter.startAt.value)
    && (q.query.filter.endAt.Some? ==> slot.startsAt.ms < q.query.filter.endAt.value)
    && (q.query.filter.slotId.Some? ==> s == q.query.filter.slotId.value)
  }

  datatype View = View(experienceId: nat, startsAt: Instant, slotCapacity: int, reserved: int, availableSpots: int)

  /** The availability fields of an answer: the slots it rests on, as it shows them. */
  function Fresh(q: Question, slots: seq<Slot>): map<nat, View> {
    map s | 0 <= s < |slots| && Shows(q, s, slots[s]) ::
      View(slots[s].experienceId, slots[s].startsAt, slots[s].capacity, slots[s].reserved, Spots(slots[s]))
  }

  /** The two tables agree on everything this tenant owns. */
  predicate SameForTenant(a: seq<Slot>, b: seq<Slot>, tenantId: string) {
    && |a| == |b|
    && forall s :: 0 <= s < |a| && (a[s].tenantId == tenantId || b[s].tenantId == tenantId) ==> a[s] == b[s]
  }

  lemma FreshDependsOnTenant(q: Question, a: seq<Slot>, b: seq<Slot>)
    requires SameForTenant(a, b, q.tenantId)
    ensures Fresh(q, a) == Fresh(q, b)
  {
    forall s | 0 <= s < |a|
      ensures Shows(q, s, a[s]) <==> Shows(q, s, b[s])
      ensures Shows(q, s, a[s]) ==> a[s] == b[s]
    {
    }
  }

  // ---------- keys ----------

  /** How questions are named in the store, and which names a tenant's pattern matches. */
  datatype Naming = Naming(text: Question -> string, matches: (string, string) -> bool)

  predicate GoodTenant(q: Question) {
    Cache.NoColon(q.tenantId)
  }

  /** One name for one question, and a pattern that matches its tenant's names and no others. */
  ghost predicate GoodNaming(n: Naming) {
    && (forall a, b :: GoodTenant(a) && GoodTenant(b) && n.text(a) == n.text(b) ==> a == b)
    && (forall q, tenantId :: GoodTenant(q) && Cache.NoColon(tenantId) ==>
          (n.matches(n.text(q), tenantId) <==> q.tenantId == tenantId))
  }

  function KeyOf(json: Query -> string, idText: nat -> string, q: Question): Cache.Key {
    match q
    case SearchFor(tenantId, query) => Cache.SearchKey(tenantId, json(query))
    case DetailOf(tenantId, experienceId, query) => Cache.DetailKey(tenantId, idText(experienceId), json(query))
  }

  /** The naming the code uses. */
  function CodeNaming(hash: string -> string, json: Query -> string, idText: nat -> string): Naming {
    Naming(q => Cache.KeyText(hash, KeyOf(json, idText, q)), (text, tenantId) => Cache.MatchesTenant(text, tenantId))
  }

  /** It is good, if hashes and JSON texts do not collide and ids are distinct and hold no colon. */
  lemma CodeNamingIsGood(hash: string -> string, json: Query -> string, idText: nat -> string)
    requires Cache.GoodHash(hash)
    requires forall a, b :: json(a) == json(b) ==> a == b
    requires forall a, b :: idText(a) == idText(b) ==> a == b
    requires forall a :: Cache.NoColon(idText(a))
    ensures GoodNaming(CodeNaming(hash, json, idText))
  {
    var n := CodeNaming(hash, json, idText);
    forall a, b | GoodTenant(a) && GoodTenant(b) && n.text(a) == n.text(b)
      ensures a == b
    {
      Cache.KeysInjective(hash, KeyOf(json, idText, a), KeyOf(json, idText, b));
    }
    forall q, tenantId | GoodTenant(q) && Cache.NoColon(tenantId)
      ensures n.matches(n.text(q), tenantId) <==> q.tenantId == tenantId
    {
      Cache.PatternMatchesTenant(hash, KeyOf(json, idText, q), tenantId);
    }
  }

  // ---------- the system ----------

  /** A computed answer, the question it answers, and the database state it was computed on. */
  datatype Entry = Entry(question: Question, answer: map<nat, View>, readAt: nat)

  /** `unseen`: names there when the scan began, there ever since, and not yet returned; `toDelete`: the last reply. */
  datatype Invalidation = Invalidation(tenantId: string, unseen: set<string>, toDelete: set<string>)

  /** `dbs` holds every state the slot table has been in; the last one is current. */
  datatype State = State(
    dbs: seq<seq<Slot>>, cache: map<string, Entry>, fills: map<nat, Entry>, invalidations: map<nat, Invalidation>)

  /** A read's cache lookup and its database read are two events: ReadMiss is the second, and by then the cache
      may hold anything. */
  datatype Step =
    | CommitSlots(tenantId: string, slots: seq<Slot>)
    | ReadMiss(id: nat, question: Question)
    | ReadHit(question: Question)
    | LandFill(id: nat)
    | LoseFill(id: nat)
    | TimeOut(text: string)
    | StartInvalidation(id: nat, tenantId: string)
    | ScanReply(id: nat, keys: set<string>)
    | DeleteReply(id: nat)
    | EndInvalidation(id: nat)
    | LoseInvalidation(id: nat)

  function Current(s: State): seq<Slot>
    requires s.dbs != []
  {
    s.dbs[|s.dbs| - 1]
  }

  /** Another tenant's slots never change in a commit for this one. */
  predicate OnlyTenantChanges(a: seq<Slot>, b: seq<Slot>, tenantId: string) {
    && |a| == |b|
    && forall s :: 0 <= s < |a| ==> a[s] == b[s] || (a[s].tenantId == tenantId && b[s].tenantId == tenantId)
  }

  predicate Enabled(n: Naming, s: State, step: Step) {
    && s.dbs != []
    && match step
       case CommitSlots(tenantId, slots) => OnlyTenantChanges(Current(s), slots, tenantId)
       case ReadMiss(id, q) => id !in s.fills && GoodTenant(q)
       case ReadHit(q) => GoodTenant(q) && n.text(q) in s.cache
       case LandFill(id) => id in s.fills
       case LoseFill(id) => id in s.fills
       case TimeOut(text) => text in s.cache
       case StartInvalidation(id, tenantId) => id !in s.invalidations && Cache.NoColon(tenantId)
       case ScanReply(id, keys) =>
         id in s.invalidations && s.invalidations[id].toDelete == {}
         && forall text :: text in keys ==> n.matches(text, s.invalidations[id].tenantId)
       case DeleteReply(id) => id in s.invalidations
       // A scan ends only when every key present throughout has been returned.
       case EndInvalidation(id) =>
         id in s.invalidations && s.invalidations[id].toDelete == {} && s.invalidations[id].unseen == {}
       case LoseInvalidation(id) => id in s.invalidations
  }

  /** Names leave the cache; none of them was present throughout any more. */
  function RemoveKeys(s: State, keys: set<string>): State {
    s.(cache := s.cache - keys,
       invalidations := map id | id in s.invalidations ::
         s.invalidations[id].(unseen := s.invalidations[id].unseen - keys))
  }

  function Next(n: Naming, s: State, step: Step): State
    requires Enabled(n, s, step)
  {
    match step
    case CommitSlots(_, slots) => s.(dbs := s.dbs + [slots])
    case ReadMiss(id, q) => s.(fills := s.fills[id := Entry(q, Fresh(q, Current(s)), |s.dbs| - 1)])
    case ReadHit(_) => s
    case LandFill(id) =>
      s.(cache := s.cache[n.text(s.fills[id].question) := s.fills[id]], fills := s.fills - {id})
    case LoseFill(id) => s.(fills := s.fills - {id})
    case TimeOut(text) => RemoveKeys(s, {text})
    case StartInvalidation(id, tenantId) =>
      var present := set text | text in s.cache && n.matches(text, tenantId);
      s.(invalidations := s.invalidations[id := Invalidation(tenantId, present, {})])
    case ScanReply(id, keys) =>
      var inv := s.invalidations[id];
      s.(invalidations := s.invalidations[id := inv.(unseen := inv.unseen - keys, toDelete := keys)])
    case DeleteReply(id) =>
      var after := RemoveKeys(s, s.invalidations[id].toDelete);
      after.(invalidations := after.invalidations[id := after.invalidations[id].(toDelete := {})])
    case EndInvalidation(id) => s.(invalidations := s.invalidations - {id})
    case LoseInvalidation(id) => s.(invalidations := s.invalidations - {id})
  }

  // ---------- a hit is the fresh answer on some earlier state ----------

  predicate EntryOk(dbs: seq<seq<Slot>>, e: Entry) {
    GoodTenant(e.question) && e.readAt < |dbs| && e.answer == Fresh(e.question, dbs[e.readAt])
  }

  predicate StoredOk(n: Naming, dbs: seq<seq<Slot>>, cache: map<string, Entry>) {
    forall text :: text in cache ==> EntryOk(dbs, cache[text]) && n.text(cache[text].question) == text
  }

  predicate FillsOk(dbs: seq<seq<Slot>>, fills: map<nat, Entry>) {
    forall id :: id in fills ==> EntryOk(dbs, fills[id])
  }

  predicate InvalidationOk(n: Naming, inv: Invalidation) {
    Cache.NoColon(inv.tenantId) && forall text :: text in inv.toDelete ==> n.matches(text, inv.tenantId)
  }

  predicate InvalidationsOk(n: Naming, invalidations: map<nat, Invalidation>) {
    forall id :: id in invalidations ==> InvalidationOk(n, invalidations[id])
  }

  predicate Inv(n: Naming, s: State) {
    && s.dbs != []
    && StoredOk(n, s.dbs, s.cache) && FillsOk(s.dbs, s.fills) && InvalidationsOk(n, s.invalidations)
  }

  lemma MoreStates(n: Naming, s: State, slots: seq<Slot>)
    requires Inv(n, s)
    ensures Inv(n, s.(dbs := s.dbs + [slots]))
  {
    forall e | EntryOk(s.dbs, e) ensures EntryOk(s.dbs + [slots], e) {
      assert (s.dbs + [slots])[e.readAt] == s.dbs[e.readAt];
    }
  }

  lemma StepEntries(n: Naming, s: State, step: Step)
    requires Inv(n, s) && Enabled(n, s, step) && !step.CommitSlots?
    ensures var s' := Next(n, s, step);
            s'.dbs == s.dbs && StoredOk(n, s.dbs, s'.cache) && FillsOk(s.dbs, s'.fills)
  {
  }

  lemma StepInvalidations(n: Naming, s: State, step: Step)
    requires InvalidationsOk(n, s.invalidations) && Enabled(n, s, step)
    ensures InvalidationsOk(n, Next(n, s, step).invalidations)
  {
  }

  lemma StepInvariant(n: Naming, s: State, step: Step)
    requires Inv(n, s) && Enabled(n, s, step)
    ensures Inv(n, Next(n, s, step)) && s.dbs <= Next(n, s, step).dbs
  {
    StepInvalidations(n, s, step);
    if step.CommitSlots? {
      MoreStates(n, s, step.slots);
    } else {
      StepEntries(n, s, step);
    }
  }

  predicate IsRun(n: Naming, states: seq<State>, steps: seq<Step>) {
    && |states| == |steps| + 1
    && states[0].dbs != [] && states[0].cache == map[] && states[0].fills == map[] && states[0].invalidations == map[]
    && (forall k :: 0 <= k < |steps| ==> StepAt(n, states, steps, k))
  }

  predicate StepAt(n: Naming, states: seq<State>, steps: seq<Step>, k: nat)
    requires k < |steps| < |states|
  {
    Enabled(n, states[k], steps[k]) && states[k + 1] == Next(n, states[k], steps[k])
  }

  lemma {:induction false} RunInvariant(n: Naming, states: seq<State>, steps: seq<Step>, k: nat)
    requires IsRun(n, states, steps) && k < |states|
    ensures Inv(n, states[k])
  {
    if k > 0 {
      RunInvariant(n, states, steps, k - 1);
      assert StepAt(n, states, steps, k - 1);
      StepInvariant(n, states[k - 1], steps[k - 1]);
    }
  }

  /** Every hit, in every interleaving, is what the same tenant, experience and query would have been answered
      on an earlier state of the database. */
  lemma HitIsEarlierAnswer(n: Naming, states: seq<State>, steps: seq<Step>, k: nat)
    requires GoodNaming(n) && IsRun(n, states, steps) && k < |steps| && steps[k].ReadHit?
    ensures var q := steps[k].question;
            n.text(q) in states[k].cache
            && var e := states[k].cache[n.text(q)];
            e.question == q && e.readAt < |states[k].dbs| && e.answer == Fresh(q, states[k].dbs[e.readAt])
  {
    RunInvariant(n, states, steps, k);
    assert StepAt(n, states, steps, k);
    var e := states[k].cache[n.text(steps[k].question)];
    assert GoodTenant(e.question) && n.text(e.question) == n.text(steps[k].question);
  }

  /** An invalidation takes no other tenant's entry. */
  lemma InvalidationSparesOthers(n: Naming, s: State, id: nat, text: string)
    requires GoodNaming(n) && Inv(n, s) && id in s.invalidations && text in s.cache
    requires s.cache[text].question.tenantId != s.invalidations[id].tenantId
    ensures var after := Next(n, s, DeleteReply(id)).cache; text in after && after[text] == s.cache[text]
  {
    var q, inv := s.cache[text].question, s.invalidations[id];
    assert GoodTenant(q) && InvalidationOk(n, inv);
    assert n.matches(n.text(q), inv.tenantId) <==> q.tenantId == inv.tenantId;
  }

  lemma FillSparesOthers(n: Naming, s: State, id: nat, text: string)
    requires GoodNaming(n) && Inv(n, s) && id in s.fills && text in s.cache
    requires s.fills[id].question != s.cache[text].question
    ensures n.text(s.fills[id].question) != text
  {
    assert EntryOk(s.dbs, s.fills[id]) && EntryOk(s.dbs, s.cache[text]) && n.text(s.cache[text].question) == text;
  }

  lemma CacheKept(n: Naming, s: State, step: Step, text: string)
    requires Enabled(n, s, step) && text in s.cache
    requires !step.LandFill? && !step.DeleteReply? && step != TimeOut(text)
    ensures text in Next(n, s, step).cache && Next(n, s, step).cache[text] == s.cache[text]
  {
  }

  lemma FillLands(n: Naming, s: State, id: nat, text: string)
    requires Enabled(n, s, LandFill(id)) && text in s.cache
    ensures var after := Next(n, s, LandFill(id)).cache;
            text in after
            && after[text] == if n.text(s.fills[id].question) == text then s.fills[id] else s.cache[text]
  {
  }

  /** Why an entry may be gone or different after a step. */
  predicate Replaced(s: State, step: Step, text: string, after: map<string, Entry>)
    requires text in s.cache
  {
    || step == TimeOut(text)
    || (step.DeleteReply? && step.id in s.invalidations
        && s.invalidations[step.id].tenantId == s.cache[text].question.tenantId)
    || (step.LandFill? && step.id in s.fills && s.fills[step.id].question == s.cache[text].question
        && text in after && after[text] == s.fills[step.id])
  }

  /** An entry that is in the cache stays there, unless it times out, is deleted by an invalidation of its own tenant,
      or is replaced by a fill for the same question. */
  lemma EntryStays(n: Naming, s: State, step: Step, text: string)
    requires GoodNaming(n) && Inv(n, s) && Enabled(n, s, step) && text in s.cache
    ensures var after := Next(n, s, step).cache;
            (text in after && after[text] == s.cache[text]) || Replaced(s, step, text, after)
  {
    if step.LandFill? {
      FillLands(n, s, step.id, text);
      if s.fills[step.id].question != s.cache[text].question { FillSparesOthers(n, s, step.id, text); }
    } else if step.DeleteReply? {
      if s.invalidations[step.id].tenantId != s.cache[text].question.tenantId {
        InvalidationSparesOthers(n, s, step.id, text);
      }
    } else if step != TimeOut(text) {
      CacheKept(n, s, step, text);
    }
  }

  /** A name that timed out is gone, and no scan has to return it any more. */
  lemma TimedOutIsGone(n: Naming, s: State, text: string)
    requires s.dbs != [] && text in s.cache
    ensures Enabled(n, s, TimeOut(text))
    ensures var after := Next(n, s, TimeOut(text));
            && after.cache == s.cache - {text}
            && forall id :: id in after.invalidations ==>
                 text !in after.invalidations[id].unseen
                 && after.invalidations[id].unseen <= s.invalidations[id].unseen
  {
  }

  /** The tenant's names in the cache. */
  function TenantNames(s: State, tenantId: string): set<string> {
    set text | text in s.cache && s.cache[text].question.tenantId == tenantId
  }

  lemma ScanBegins(n: Naming, s: State, id: nat, tenantId: string)
    requires GoodNaming(n) && Inv(n, s) && id !in s.invalidations && Cache.NoColon(tenantId)
    ensures var step, found := StartInvalidation(id, tenantId), TenantNames(s, tenantId);
            && Enabled(n, s, step) && Next(n, s, step).cache == s.cache && Next(n, s, step).dbs == s.dbs
            && id in Next(n, s, step).invalidations
            && Next(n, s, step).invalidations[id] == Invalidation(tenantId, found, {})
            && forall text :: text in found ==> n.matches(text, tenantId)
  {
    forall text | text in s.cache
      ensures n.matches(text, tenantId) <==> s.cache[text].question.tenantId == tenantId
    {
      assert EntryOk(s.dbs, s.cache[text]) && n.text(s.cache[text].question) == text;
    }
    assert (set text | text in s.cache && n.matches(text, tenantId)) == TenantNames(s, tenantId);
  }

  lemma ScanReturnsAll(n: Naming, s: State, id: nat, tenantId: string, found: set<string>)
    requires s.dbs != [] && id in s.invalidations && s.invalidations[id] == Invalidation(tenantId, found, {})
    requires forall text :: text in found ==> n.matches(text, tenantId)
    ensures Enabled(n, s, ScanReply(id, found))
    ensures var after := Next(n, s, ScanReply(id, found));
            after == s.(invalidations := s.invalidations[id := Invalidation(tenantId, {}, found)])
  {
    assert found - found == {};
  }

  lemma DeletesAll(n: Naming, s: State, id: nat, tenantId: string, found: set<string>)
    requires s.dbs != [] && id in s.invalidations && s.invalidations[id] == Invalidation(tenantId, {}, found)
    ensures Enabled(n, s, DeleteReply(id))
    ensures var after := Next(n, s, DeleteReply(id));
            && after.cache == s.cache - found && after.dbs == s.dbs
            && id in after.invalidations && after.invalidations[id] == Invalidation(tenantId, {}, {})
  {
    assert {} - found == {};
  }

  /** The four steps of an invalidation that one reply suffices for. */
  ghost function InvalidateAlone(n: Naming, s: State, id: nat, tenantId: string): State
    requires GoodNaming(n) && Inv(n, s) && id !in s.invalidations && Cache.NoColon(tenantId)
  {
    var found := TenantNames(s, tenantId);
    ScanBegins(n, s, id, tenantId);
    var started := Next(n, s, StartInvalidation(id, tenantId));
    ScanReturnsAll(n, started, id, tenantId, found);
    var scanned := Next(n, started, ScanReply(id, found));
    DeletesAll(n, scanned, id, tenantId, found);
    var deleted := Next(n, scanned, DeleteReply(id));
    Next(n, deleted, EndInvalidation(id))
  }

  /** An invalidation that nothing disturbs can run to its end, and takes exactly its tenant's entries. */
  lemma UndisturbedInvalidation(n: Naming, s: State, id: nat, tenantId: string)
    requires GoodNaming(n) && Inv(n, s) && id !in s.invalidations && Cache.NoColon(tenantId)
    ensures InvalidateAlone(n, s, id, tenantId).cache == s.cache - TenantNames(s, tenantId)
    ensures InvalidateAlone(n, s, id, tenantId).dbs == s.dbs
  {
    var found := TenantNames(s, tenantId);
    ScanBegins(n, s, id, tenantId);
    var started := Next(n, s, StartInvalidation(id, tenantId));
    ScanReturnsAll(n, started, id, tenantId, found);
    DeletesAll(n, Next(n, started, ScanReply(id, found)), id, tenantId, found);
  }

  // ---------- when a hit is the current answer ----------

  /** The tenant's slots have not changed since database state v. */
  predicate QuietSince(s: State, tenantId: string, v: nat) {
    && v < |s.dbs|
    && forall w :: v <= w < |s.dbs| ==> SameForTenant(s.dbs[v], s.dbs[w], tenantId)
  }

  /** An answer of the tenant's that was read before state v. */
  predicate IsOld(e: Entry, tenantId: string, v: nat) {
    e.question.tenantId == tenantId && e.readAt < v
  }

  /** No entry of the tenant was read before state v. */
  predicate Clean(s: State, tenantId: string, v: nat) {
    forall text :: text in s.cache ==> !IsOld(s.cache[text], tenantId, v)
  }

  /** Step k lands a fill of the tenant's that was read before state v. */
  predicate LandsOld(states: seq<State>, steps: seq<Step>, k: nat, tenantId: string, v: nat)
    requires k < |steps| < |states|
  {
    steps[k].LandFill? && steps[k].id in states[k].fills && IsOld(states[k].fills[steps[k].id], tenantId, v)
  }

  /** Old entries only where the scan has yet to pass. */
  predicate OldOnlyAhead(s: State, id: nat, tenantId: string, v: nat) {
    && id in s.invalidations && s.invalidations[id].tenantId == tenantId
    && forall text :: text in s.cache && IsOld(s.cache[text], tenantId, v) ==>
         text in s.invalidations[id].unseen || text in s.invalidations[id].toDelete
  }

  /** Invalidation `id` runs from step j to step k without failing. */
  predicate RunsBetween(states: seq<State>, steps: seq<Step>, id: nat, tenantId: string, j: nat, k: nat)
    requires |states| == |steps| + 1
  {
    && j < k < |steps|
    && steps[j] == StartInvalidation(id, tenantId) && steps[k] == EndInvalidation(id)
    && (forall m :: j < m < k ==> steps[m] != EndInvalidation(id) && steps[m] != LoseInvalidation(id))
  }

  /** When a scan starts, it has every name of the tenant ahead of it. */
  lemma ScanStart(n: Naming, s: State, id: nat, tenantId: string, v: nat)
    requires GoodNaming(n) && Inv(n, s) && Enabled(n, s, StartInvalidation(id, tenantId))
    ensures OldOnlyAhead(Next(n, s, StartInvalidation(id, tenantId)), id, tenantId, v)
  {
    var present := set text | text in s.cache && n.matches(text, tenantId);
    forall text | text in s.cache && IsOld(s.cache[text], tenantId, v)
      ensures text in present
    {
      var q := s.cache[text].question;
      assert GoodTenant(q) && n.text(q) == text;
    }
  }

  lemma ScanStep(n: Naming, s: State, step: Step, id: nat, tenantId: string, v: nat)
    requires Inv(n, s) && Enabled(n, s, step) && OldOnlyAhead(s, id, tenantId, v)
    requires step != EndInvalidation(id) && step != LoseInvalidation(id)
    requires step.LandFill? ==> !IsOld(s.fills[step.id], tenantId, v)
    ensures OldOnlyAhead(Next(n, s, step), id, tenantId, v)
  {
  }

  lemma {:induction false} ScanCleans(
    n: Naming, states: seq<State>, steps: seq<Step>, id: nat, tenantId: string, v: nat, j: nat, k: nat, m: nat)
    requires GoodNaming(n) && IsRun(n, states, steps) && RunsBetween(states, steps, id, tenantId, j, k) && j < m <= k
    requires forall l :: j <= l < k ==> !LandsOld(states, steps, l, tenantId, v)
    ensures OldOnlyAhead(states[m], id, tenantId, v)
  {
    RunInvariant(n, states, steps, m - 1);
    assert StepAt(n, states, steps, m - 1);
    if m - 1 == j {
      ScanStart(n, states[j], id, tenantId, v);
    } else {
      ScanCleans(n, states, steps, id, tenantId, v, j, k, m - 1);
      assert !LandsOld(states, steps, m - 1, tenantId, v);
      ScanStep(n, states[m - 1], steps[m - 1], id, tenantId, v);
    }
  }

  lemma StepKeepsClean(n: Naming, s: State, step: Step, tenantId: string, v: nat)
    requires Inv(n, s) && Enabled(n, s, step) && Clean(s, tenantId, v)
    ensures Clean(Next(n, s, step), tenantId, v) <==> !(step.LandFill? && IsOld(s.fills[step.id], tenantId, v))
  {
    if step.LandFill? {
      assert n.text(s.fills[step.id].question) in Next(n, s, step).cache;
    }
  }

  /** An invalidation that runs to its end with no old fill landing meanwhile leaves no old entry... */
  lemma InvalidationCleans(
    n: Naming, states: seq<State>, steps: seq<Step>, id: nat, tenantId: string, v: nat, j: nat, k: nat)
    requires GoodNaming(n) && IsRun(n, states, steps) && RunsBetween(states, steps, id, tenantId, j, k)
    requires forall l :: j <= l < k ==> !LandsOld(states, steps, l, tenantId, v)
    ensures Clean(states[k + 1], tenantId, v)
  {
    ScanCleans(n, states, steps, id, tenantId, v, j, k, k);
    assert StepAt(n, states, steps, k);
  }

  /** ...and from then on the tenant's cache stays clean exactly as long as no old fill lands. */
  lemma {:induction false} CleanIff(
    n: Naming, states: seq<State>, steps: seq<Step>, tenantId: string, v: nat, k: nat, m: nat)
    requires IsRun(n, states, steps) && k <= m < |states| && Clean(states[k], tenantId, v)
    ensures (forall i :: k <= i <= m ==> Clean(states[i], tenantId, v))
       <==> (forall l :: k <= l < m ==> !LandsOld(states, steps, l, tenantId, v))
    decreases m
  {
    if k < m {
      CleanIff(n, states, steps, tenantId, v, k, m - 1);
      RunInvariant(n, states, steps, m - 1);
      assert StepAt(n, states, steps, m - 1);
      if Clean(states[m - 1], tenantId, v) {
        StepKeepsClean(n, states[m - 1], steps[m - 1], tenantId, v);
        assert Clean(states[m], tenantId, v) <==> !LandsOld(states, steps, m - 1, tenantId, v);
      }
    }
  }

  /** On a state quiet since v, an answer read at v or later is the current one. */
  lemma NotOldIsCurrent(s: State, e: Entry, v: nat)
    requires EntryOk(s.dbs, e) && QuietSince(s, e.question.tenantId, v) && !IsOld(e, e.question.tenantId, v)
    ensures s.dbs != [] && e.answer == Fresh(e.question, Current(s))
  {
    var tenantId := e.question.tenantId;
    assert SameForTenant(s.dbs[v], s.dbs[e.readAt], tenantId) && SameForTenant(s.dbs[v], Current(s), tenantId);
    FreshDependsOnTenant(e.question, s.dbs[v], s.dbs[e.readAt]);
    FreshDependsOnTenant(e.question, s.dbs[v], Current(s));
  }

  /** Once an invalidation has run after the tenant's last slot commit, and no fill read before that commit lands
      from its start on, every hit shows the current availability. */
  lemma HitIsCurrent(
    n: Naming, states: seq<State>, steps: seq<Step>, id: nat, tenantId: string, v: nat, j: nat, k: nat, m: nat)
    requires GoodNaming(n) && IsRun(n, states, steps)
    requires RunsBetween(states, steps, id, tenantId, j, k) && k < m < |steps|
    requires QuietSince(states[m], tenantId, v)
    requires forall l :: j <= l < m ==> !LandsOld(states, steps, l, tenantId, v)
    requires steps[m].ReadHit? && steps[m].question.tenantId == tenantId
    ensures n.text(steps[m].question) in states[m].cache
    ensures states[m].cache[n.text(steps[m].question)].answer == Fresh(steps[m].question, Current(states[m]))
  {
    InvalidationCleans(n, states, steps, id, tenantId, v, j, k);
    CleanIff(n, states, steps, tenantId, v, k + 1, m);
    HitIsEarlierAnswer(n, states, steps, m);
    RunInvariant(n, states, steps, m);
    NotOldIsCurrent(states[m], states[m].cache[n.text(steps[m].question)], v);
  }

  /** Commits for other tenants leave this tenant's answers alone. */
  lemma OtherTenantsCommit(a: seq<Slot>, b: seq<Slot>, tenantId: string, q: Question)
    requires OnlyTenantChanges(a, b, tenantId) && q.tenantId != tenantId
    ensures Fresh(q, a) == Fresh(q, b)
  {
    FreshDependsOnTenant(q, a, b);
  }
}
