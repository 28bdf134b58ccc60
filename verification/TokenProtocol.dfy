/**
  Refreshes and logouts in flight together: each looks its token up, waits, and
  later commits or aborts.  Revocation is permanent; the chain is kept exactly as long
  as no exchange lands on a token that was retired or revoked after its lookup.
 */
module TokenProtocol {
  import opened Wrappers
  import opened Tokens

  datatype Outcome = Succeeded(next: string) | Failed(verdict: Verdict) | LoggedOut | Aborted

  /** The log of requests; a request's id is its position. */
  datatype Request =
    | Refreshing(token: string, verdict: Verdict)
    | LoggingOut(token: string, familyId: nat)
    | Done(outcome: Outcome)

  datatype State = State(auth: Auth, now: int, requests: seq<Request>)

  datatype Step =
    | StartSession(userId: nat, token: string, expiresAt: int)
    | StartRefresh(token: string)
    | StartLogout(token: string)
    | Commit(rid: nat, next: string, expiresAt: int)
    | Abort(rid: nat)
    | Tick(elapsed: nat)

  predicate Enabled(s: State, step: Step) {
    match step
    case StartSession(_, token, _) => FreshToken(s.auth, token)
    case Commit(rid, next, _) => rid < |s.requests| && !s.requests[rid].Done? && FreshToken(s.auth, next)
    case Abort(rid) => rid < |s.requests| && !s.requests[rid].Done?
    case _ => true
  }

  /** Reuse and a good token lead to a transaction; every other verdict ends the request at once. */
  function AfterLookup(token: string, verdict: Verdict): Request {
    if verdict.ReuseDetected? || verdict.MayExchange? then Refreshing(token, verdict) else Done(Failed(verdict))
  }

  function AfterLogoutLookup(a: Auth, token: string): Request {
    if token == "" then Done(Failed(BadRequest))
    else
      match FindToken(a.tokens, token)
      case None => Done(LoggedOut)
      case Some(id) => LoggingOut(token, a.tokens[id].familyId)
  }

  function CommitRequest(a: Auth, r: Request, next: string, expiresAt: int): (Auth, Outcome) {
    match r
    case Refreshing(_, ReuseDetected(familyId)) =>
      if familyId < |a.families| then (RevokeFamily(a, familyId), Failed(ReuseDetected(familyId))) else (a, Aborted)
    case Refreshing(_, MayExchange(tokenId, familyId)) =>
      if tokenId < |a.tokens| then (Exchange(a, tokenId, familyId, next, expiresAt), Succeeded(next)) else (a, Aborted)
    case LoggingOut(_, familyId) =>
      if familyId < |a.families| then (RevokeFamily(a, familyId), LoggedOut) else (a, Aborted)
    case _ => (a, Aborted)
  }

  function Next(s: State, step: Step): State
    requires Enabled(s, step)
  {
    match step
    case StartSession(userId, token, expiresAt) => s.(auth := CreateRefreshSession(s.auth, userId, token, expiresAt))
    case StartRefresh(token) => s.(requests := s.requests + [AfterLookup(token, LookupRefresh(s.auth, token, s.now))])
    case StartLogout(token) => s.(requests := s.requests + [AfterLogoutLookup(s.auth, token)])
    case Commit(rid, next, expiresAt) =>
      var (auth, outcome) := CommitRequest(s.auth, s.requests[rid], next, expiresAt);
      s.(auth := auth, requests := s.requests[rid := Done(outcome)])
    case Abort(rid) => s.(requests := s.requests[rid := Done(Aborted)])
    case Tick(elapsed) => s.(now := s.now + elapsed)
  }

  // ---------- what every reachable state satisfies ----------

  /** What a waiting request knows stays true. */
  predicate RequestOk(a: Auth, r: Request) {
    match r
    case Refreshing(token, ReuseDetected(f)) =>
      f < |a.families| && exists i :: 0 <= i < |a.tokens| && a.tokens[i].value == token && a.tokens[i].familyId == f
    case Refreshing(token, MayExchange(id, f)) =>
      id < |a.tokens| && a.tokens[id].value == token && a.tokens[id].familyId == f && f < |a.families|
    case Refreshing(_, _) => false
    case LoggingOut(token, f) =>
      f < |a.families| && exists i :: 0 <= i < |a.tokens| && a.tokens[i].value == token && a.tokens[i].familyId == f
    case Done(Failed(ReuseDetected(f))) => f < |a.families| && a.families[f].revoked
    case Done(_) => true
  }

  predicate Inv(s: State) {
    && RowsOk(s.auth)
    && (forall r :: 0 <= r < |s.requests| ==> RequestOk(s.auth, s.requests[r]))
  }

  lemma RequestStable(a: Auth, a': Auth, r: Request)
    requires RequestOk(a, r) && AuthEvolves(a, a')
    ensures RequestOk(a', r)
  {
  }

  lemma ExchangeKeepsRows(a: Auth, tokenId: nat, next: string, expiresAt: int)
    requires RowsOk(a) && FreshToken(a, next) && tokenId < |a.tokens|
    ensures RowsOk(Exchange(a, tokenId, a.tokens[tokenId].familyId, next, expiresAt))
    ensures AuthEvolves(a, Exchange(a, tokenId, a.tokens[tokenId].familyId, next, expiresAt))
  {
  }

  lemma CommitEvolves(a: Auth, r: Request, next: string, expiresAt: int)
    requires RowsOk(a) && RequestOk(a, r) && !r.Done? && FreshToken(a, next)
    ensures var (after, outcome) := CommitRequest(a, r, next, expiresAt);
            RowsOk(after) && AuthEvolves(a, after) && RequestOk(after, Done(outcome))
  {
    match r
    case Refreshing(_, ReuseDetected(f)) => RevokeKeepsRows(a, f);
    case Refreshing(_, MayExchange(id, _)) => ExchangeKeepsRows(a, id, next, expiresAt);
    case LoggingOut(_, f) => RevokeKeepsRows(a, f);
  }

  lemma StepEvolves(s: State, step: Step)
    requires Inv(s) && Enabled(s, step)
    ensures RowsOk(Next(s, step).auth) && AuthEvolves(s.auth, Next(s, step).auth)
  {
    if step.Commit? {
      CommitEvolves(s.auth, s.requests[step.rid], step.next, step.expiresAt);
    }
  }

  /** The request a step adds or ends. */
  lemma StepRequests(s: State, step: Step)
    requires Inv(s) && Enabled(s, step)
    ensures var s' := Next(s, step);
            && |s.requests| <= |s'.requests|
            && (forall r :: 0 <= r < |s'.requests| ==>
                  RequestOk(s'.auth, s'.requests[r]) || (r < |s.requests| && s'.requests[r] == s.requests[r]))
            && (forall r :: 0 <= r < |s.requests| && s.requests[r].Done? ==> s'.requests[r] == s.requests[r])
  {
  }

  lemma StepInvariant(s: State, step: Step)
    requires Inv(s) && Enabled(s, step)
    ensures Inv(Next(s, step)) && AuthEvolves(s.auth, Next(s, step).auth)
    ensures |s.requests| <= |Next(s, step).requests|
    ensures forall r :: 0 <= r < |s.requests| && s.requests[r].Done? ==> Next(s, step).requests[r] == s.requests[r]
  {
    var s' := Next(s, step);
    StepEvolves(s, step);
    StepRequests(s, step);
    forall r | 0 <= r < |s'.requests|
      ensures RequestOk(s'.auth, s'.requests[r])
    {
      if r < |s.requests| && s'.requests[r] == s.requests[r] {
        RequestStable(s.auth, s'.auth, s.requests[r]);
      }
    }
  }

  // ---------- runs ----------

  predicate IsRun(states: seq<State>, steps: seq<Step>) {
    && |states| == |steps| + 1 && RowsOk(states[0].auth) && states[0].requests == []
    && (forall k :: 0 <= k < |steps| ==> StepAt(states, steps, k))
  }

  predicate StepAt(states: seq<State>, steps: seq<Step>, k: nat)
    requires k < |steps| < |states|
  {
    Enabled(states[k], steps[k]) && states[k + 1] == Next(states[k], steps[k])
  }

  lemma {:induction false} RunInvariant(states: seq<State>, steps: seq<Step>, k: nat)
    requires IsRun(states, steps) && k < |states|
    ensures Inv(states[k])
  {
    if k > 0 {
      RunInvariant(states, steps, k - 1);
      assert StepAt(states, steps, k - 1);
      StepInvariant(states[k - 1], steps[k - 1]);
    }
  }

  /** Families and tokens stay revoked, and a finished request keeps its outcome. */
  lemma {:induction false} RunEvolves(states: seq<State>, steps: seq<Step>, i: nat, j: nat)
    requires IsRun(states, steps) && i <= j < |states|
    ensures AuthEvolves(states[i].auth, states[j].auth)
    ensures |states[i].requests| <= |states[j].requests|
    ensures forall r :: 0 <= r < |states[i].requests| && states[i].requests[r].Done?
                    ==> states[j].requests[r] == states[i].requests[r]
    decreases j
  {
    if i < j {
      RunEvolves(states, steps, i, j - 1);
      RunInvariant(states, steps, j - 1);
      assert StepAt(states, steps, j - 1);
      StepInvariant(states[j - 1], steps[j - 1]);
      AuthEvolvesTransitive(states[i].auth, states[j - 1].auth, states[j].auth);
    }
  }

  /** Revocation is permanent: a refresh whose lookup follows its family's revocation, however long after, fails
      for good. */
  lemma NoRefreshAfterRevocation(states: seq<State>, steps: seq<Step>, r: nat, f: nat, i: nat, j: nat, id: nat)
    requires IsRun(states, steps) && r <= i < j < |states| && steps[i].StartRefresh?
    requires f < |states[r].auth.families| && states[r].auth.families[f].revoked
    requires id < |states[i].auth.tokens| && states[i].auth.tokens[id].familyId == f
    requires steps[i].token == states[i].auth.tokens[id].value
    ensures |states[i].requests| < |states[j].requests|
    ensures states[j].requests[|states[i].requests|] == Done(Failed(SessionRevoked))
    ensures f < |states[j].auth.families| && states[j].auth.families[f].revoked
  {
    RunInvariant(states, steps, i);
    assert StepAt(states, steps, i);
    FindTokenUnique(states[i].auth.tokens, id);
    RunEvolves(states, steps, r, i);
    RunEvolves(states, steps, i + 1, j);
    RunEvolves(states, steps, r, j);
    assert states[i + 1].requests[|states[i].requests|] == Done(Failed(SessionRevoked));
  }

  /** A logout that commits revokes the family of the token it presented, with every token in it... */
  lemma LogoutCommits(s: State, step: Step, id: nat)
    requires Inv(s) && Enabled(s, step) && step.Commit? && s.requests[step.rid].LoggingOut?
    requires id < |s.auth.tokens| && s.auth.tokens[id].value == s.requests[step.rid].token
    ensures var f := s.auth.tokens[id].familyId;
            f < |Next(s, step).auth.families| && FamilyRevoked(Next(s, step).auth, f)
    ensures Next(s, step).requests[step.rid] == Done(LoggedOut)
  {
    var f := s.requests[step.rid].familyId;
    assert RequestOk(s.auth, s.requests[step.rid]);
    var i :| 0 <= i < |s.auth.tokens| && s.auth.tokens[i].value == s.requests[step.rid].token
             && s.auth.tokens[i].familyId == f;
    assert i == id by {
      FindTokenUnique(s.auth.tokens, i);
      FindTokenUnique(s.auth.tokens, id);
    }
  }

  /** ...so every lookup from then on of a token of that family fails for good, one exchanged in a race included. */
  lemma NoRefreshAfterLogout(states: seq<State>, steps: seq<Step>, k: nat, id: nat, i: nat, j: nat, other: nat)
    requires IsRun(states, steps) && k < i < j < |states|
    requires steps[k].Commit? && steps[k].rid < |states[k].requests| && states[k].requests[steps[k].rid].LoggingOut?
    requires id < |states[k].auth.tokens| && states[k].auth.tokens[id].value == states[k].requests[steps[k].rid].token
    requires other < |states[i].auth.tokens| && steps[i] == StartRefresh(states[i].auth.tokens[other].value)
    requires states[i].auth.tokens[other].familyId == states[k].auth.tokens[id].familyId
    ensures |states[i].requests| < |states[j].requests|
    ensures states[j].requests[|states[i].requests|] == Done(Failed(SessionRevoked))
  {
    RunInvariant(states, steps, k);
    assert StepAt(states, steps, k);
    LogoutCommits(states[k], steps[k], id);
    NoRefreshAfterRevocation(states, steps, k + 1, states[k].auth.tokens[id].familyId, i, j, other);
  }

  // ---------- reuse ----------

  /** How a refresh of a retired token can stand: it never succeeds, and once it has been answered as reuse
      or as a revoked session its family is revoked. */
  predicate RefusedAsReuse(a: Auth, r: Request, token: string, f: nat) {
    || r == Refreshing(token, ReuseDetected(f))
    || r == Done(Aborted)
    || ((r == Done(Failed(ReuseDetected(f))) || r == Done(Failed(SessionRevoked)))
        && f < |a.families| && a.families[f].revoked)
  }

  lemma RefusedStable(s: State, step: Step, r: nat, token: string, f: nat)
    requires Inv(s) && Enabled(s, step) && r < |s.requests|
    requires RefusedAsReuse(s.auth, s.requests[r], token, f)
    ensures r < |Next(s, step).requests| && RefusedAsReuse(Next(s, step).auth, Next(s, step).requests[r], token, f)
  {
  }

  lemma {:induction false} RefusedForGood(states: seq<State>, steps: seq<Step>, i: nat, j: nat, r: nat,
      token: string, f: nat)
    requires IsRun(states, steps) && i <= j < |states| && r < |states[i].requests|
    requires RefusedAsReuse(states[i].auth, states[i].requests[r], token, f)
    ensures r < |states[j].requests| && RefusedAsReuse(states[j].auth, states[j].requests[r], token, f)
    decreases j
  {
    if i < j {
      RefusedForGood(states, steps, i, j - 1, r, token, f);
      RunInvariant(states, steps, j - 1);
      assert StepAt(states, steps, j - 1);
      RefusedStable(states[j - 1], steps[j - 1], r, token, f);
    }
  }

  /** Step k commits an exchange of token row `id`. */
  predicate ExchangesAt(states: seq<State>, steps: seq<Step>, k: nat, id: nat)
    requires k < |steps| < |states|
  {
    && steps[k].Commit? && steps[k].rid < |states[k].requests|
    && states[k].requests[steps[k].rid].Refreshing?
    && states[k].requests[steps[k].rid].verdict.MayExchange?
    && states[k].requests[steps[k].rid].verdict.tokenId == id
  }

  /** Presenting a token after it was exchanged never succeeds, and unless its revoking transaction aborts
      it leaves the family revoked, whatever else runs in between. */
  lemma ReuseAlwaysFails(states: seq<State>, steps: seq<Step>, k: nat, i: nat, j: nat, id: nat)
    requires IsRun(states, steps) && k < i < j < |states| && k < |steps| && ExchangesAt(states, steps, k, id)
    requires steps[i].StartRefresh?
    requires id < |states[i].auth.tokens| && steps[i].token == states[i].auth.tokens[id].value
    ensures var r := |states[i].requests|;
            r < |states[j].requests|
            && RefusedAsReuse(states[j].auth, states[j].requests[r], steps[i].token, states[i].auth.tokens[id].familyId)
  {
    RunInvariant(states, steps, k);
    RunInvariant(states, steps, i);
    assert StepAt(states, steps, k) && StepAt(states, steps, i);
    assert RequestOk(states[k].auth, states[k].requests[steps[k].rid]);
    assert states[k + 1].auth.tokens[id].revoked;
    RunEvolves(states, steps, k + 1, i);
    assert TokenEvolves(states[k + 1].auth.tokens[id], states[i].auth.tokens[id]);
    FindTokenUnique(states[i].auth.tokens, id);
    RefusedForGood(states, steps, i + 1, j, |states[i].requests|, steps[i].token, states[i].auth.tokens[id].familyId);
  }

  // ---------- when the chain survives ----------

  /** An exchange about to land on a token that was retired or revoked after its lookup: the guard the
      transaction lacks. */
  predicate LateExchange(s: State, step: Step) {
    && step.Commit? && step.rid < |s.requests|
    && s.requests[step.rid].Refreshing? && s.requests[step.rid].verdict.MayExchange?
    && var id := s.requests[step.rid].verdict.tokenId;
    id < |s.auth.tokens| && s.auth.tokens[id].revoked
  }

  /** Exchanging a revoked token breaks its family's chain: it forks the chain, or puts a live end on a
      revoked family. */
  lemma RevokedExchangeBreaks(a: Auth, id: nat, next: string, expiresAt: int)
    requires Valid(a) && id < |a.tokens| && a.tokens[id].revoked
    ensures a.tokens[id].familyId < |a.families|
    ensures !FamilyOk(Exchange(a, id, a.tokens[id].familyId, next, expiresAt), a.tokens[id].familyId)
  {
    var f := a.tokens[id].familyId;
    var c, after := ChainOf(a.tokens, f), Exchange(a, id, f, next, expiresAt);
    assert FamilyOk(a, f);
    ExchangeChain(a, id, next, expiresAt, f);
    var k := ChainComplete(a.tokens, f, id);
    assert ChainOf(after.tokens, f) == c + [|a.tokens|];
    if k < |c| - 1 {
      assert (c + [|a.tokens|])[k] == id && (c + [|a.tokens|])[k + 1] == c[k + 1] < |a.tokens|;
      assert after.tokens[id].replacedById == Some(|a.tokens|);
    } else {
      assert a.families[f].revoked && !after.tokens[|a.tokens|].revoked;
    }
  }

  lemma LiveExchangeKeepsValid(a: Auth, id: nat, next: string, expiresAt: int)
    requires Valid(a) && FreshToken(a, next) && id < |a.tokens| && !a.tokens[id].revoked
    ensures Valid(Exchange(a, id, a.tokens[id].familyId, next, expiresAt))
  {
    OneLiveToken(a, a.tokens[id].familyId);
    ExchangeKeepsValid(a, id, next, expiresAt);
  }

  /** A commit keeps every family one chain exactly if it is not a late exchange. */
  lemma CommitValidIff(s: State, step: Step)
    requires Inv(s) && Enabled(s, step) && Valid(s.auth) && step.Commit?
    ensures Valid(Next(s, step).auth) <==> !LateExchange(s, step)
  {
    assert RequestOk(s.auth, s.requests[step.rid]);
    match s.requests[step.rid]
    case Refreshing(_, ReuseDetected(f)) => RevokeKeepsValid(s.auth, f);
    case LoggingOut(_, f) => RevokeKeepsValid(s.auth, f);
    case Refreshing(_, MayExchange(id, f)) =>
      if s.auth.tokens[id].revoked {
        RevokedExchangeBreaks(s.auth, id, step.next, step.expiresAt);
      } else {
        LiveExchangeKeepsValid(s.auth, id, step.next, step.expiresAt);
      }
  }

  /** A step keeps every family one chain exactly if it is not a late exchange. */
  lemma StepValidIff(s: State, step: Step)
    requires Inv(s) && Enabled(s, step) && Valid(s.auth)
    ensures Valid(Next(s, step).auth) <==> !LateExchange(s, step)
  {
    match step
    case StartSession(userId, token, expiresAt) => CreateKeepsValid(s.auth, userId, token, expiresAt);
    case Commit(_, _, _) => CommitValidIff(s, step);
    case _ =>
  }

  /** Over a run, every family stays one chain exactly as long as no exchange lands late. */
  lemma {:induction false} RunValidIff(states: seq<State>, steps: seq<Step>, k: nat)
    requires IsRun(states, steps) && k < |states| && Valid(states[0].auth)
    ensures (forall m :: 0 <= m <= k ==> Valid(states[m].auth))
       <==> (forall m :: 0 <= m < k ==> !LateExchange(states[m], steps[m]))
  {
    if k > 0 {
      RunValidIff(states, steps, k - 1);
      RunInvariant(states, steps, k - 1);
      assert StepAt(states, steps, k - 1);
      if Valid(states[k - 1].auth) {
        StepValidIff(states[k - 1], steps[k - 1]);
        assert Valid(states[k].auth) <==> !LateExchange(states[k - 1], steps[k - 1]);
      }
    }
  }

  // ---------- a request alone ----------

  /** A lookup and its commit with nothing in between do what the one-request-at-a-time model does. */
  lemma RefreshAlone(s: State, token: string, next: string, expiresAt: int)
    requires RowsOk(s.auth) && FreshToken(s.auth, next)
    ensures var looked, rid := Next(s, StartRefresh(token)), |s.requests|;
            var after := Handle(s.auth, Tokens.Refresh(token, s.now, next, expiresAt));
            if looked.requests[rid].Done? then looked.auth == s.auth == after
            else Enabled(looked, Commit(rid, next, expiresAt))
                 && Next(looked, Commit(rid, next, expiresAt)).auth == after
  {
  }

  lemma LogoutAlone(s: State, token: string, next: string, expiresAt: int)
    requires RowsOk(s.auth) && FreshToken(s.auth, next)
    ensures var looked, rid := Next(s, StartLogout(token)), |s.requests|;
            var after := Handle(s.auth, Tokens.Logout(token));
            if looked.requests[rid].Done? then looked.auth == s.auth == after
            else Enabled(looked, Commit(rid, next, expiresAt))
                 && Next(looked, Commit(rid, next, expiresAt)).auth == after
  {
  }

  lemma LoginAlone(s: State, userId: nat, token: string, expiresAt: int)
    requires FreshToken(s.auth, token)
    ensures Enabled(s, StartSession(userId, token, expiresAt))
    ensures Next(s, StartSession(userId, token, expiresAt))
         == s.(auth := Handle(s.auth, Tokens.Login(userId, token, expiresAt)))
  {
  }

  /** Time passes: once the clock has reached a live token's expiry, a refresh with it is refused as expired. */
  lemma TickThenExpired(s: State, elapsed: nat, id: nat)
    requires Valid(s.auth) && id < |s.auth.tokens| && IsLive(s.auth, id)
    requires s.auth.tokens[id].expiresAt <= s.now + elapsed
    ensures var ticked := Next(s, Tick(elapsed));
            && ticked.now == s.now + elapsed && ticked.auth == s.auth
            && Next(ticked, StartRefresh(s.auth.tokens[id].value)).requests
               == s.requests + [Done(Failed(TokenExpired))]
  {
    RefusedBecause(s.auth, id, s.now + elapsed);
  }
}
