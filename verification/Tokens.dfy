/**
  Refresh-token families with rotation and reuse detection
  (src/services/auth.service.ts), one request at a time: the pattern of section
  4.14.2 of RFC 9700.

  A token is identified with its hash: the hash is taken to be injective and
  generated tokens to be fresh.
 */
module Tokens {
  import opened Wrappers

  datatype Family = Family(userId: nat, revoked: bool)

  datatype Token = Token(familyId: nat, value: string, revoked: bool, replacedById: Option<nat>, expiresAt: int)

  datatype Auth = Auth(activeUsers: set<nat>, families: seq<Family>, tokens: seq<Token>)

  // ---------- what the transactions do ----------

  function CreateRefreshSession(a: Auth, userId: nat, token: string, expiresAt: int): Auth {
    a.(families := a.families + [Family(userId, false)],
       tokens := a.tokens + [Token(|a.families|, token, false, None, expiresAt)])
  }

  function RevokeToken(t: Token, familyId: nat): Token {
    if t.familyId == familyId then t.(revoked := true) else t
  }

  /** The family and every token in it. */
  function RevokeFamily(a: Auth, familyId: nat): Auth
    requires familyId < |a.families|
  {
    a.(families := a.families[familyId := a.families[familyId].(revoked := true)],
       tokens := seq(|a.tokens|, i requires 0 <= i < |a.tokens| => RevokeToken(a.tokens[i], familyId)))
  }

  /** Store the replacement, then retire the token and point it at the replacement. */
  function Exchange(a: Auth, tokenId: nat, familyId: nat, next: string, expiresAt: int): Auth
    requires tokenId < |a.tokens|
  {
    var replacement := Token(familyId, next, false, None, expiresAt);
    var retired := a.tokens[tokenId].(revoked := true, replacedById := Some(|a.tokens|));
    a.(tokens := a.tokens[tokenId := retired] + [replacement])
  }

  // ---------- lookups ----------

  function FindToken(tokens: seq<Token>, token: string): (r: Option<nat>)
    ensures r.Some? ==> r.value < |tokens| && tokens[r.value].value == token
    ensures r.None? ==> forall k :: 0 <= k < |tokens| ==> tokens[k].value != token
  {
    if tokens == [] then None
    else
      var n := |tokens| - 1;
      var earlier := FindToken(tokens[..n], token);
      if earlier.Some? then earlier else if tokens[n].value == token then Some(n) else None
  }

  datatype Verdict =
    | BadRequest | Invalid | SessionRevoked | TokenExpired | AccountDisabled
    | ReuseDetected(familyId: nat)
    | MayExchange(tokenId: nat, familyId: nat)

  function LookupRefresh(a: Auth, token: string, now: int): Verdict {
    if token == "" then BadRequest
    else
      match FindToken(a.tokens, token)
      case None => Invalid
      case Some(id) =>
        var t := a.tokens[id];
        if t.familyId >= |a.families| then Invalid
        else if a.families[t.familyId].revoked then SessionRevoked
        else if t.revoked then ReuseDetected(t.familyId)
        else if t.expiresAt <= now then TokenExpired
        else if a.families[t.familyId].userId !in a.activeUsers then AccountDisabled
        else MayExchange(id, t.familyId)
  }

  // ---------- one request at a time ----------

  datatype Request =
    | Login(userId: nat, token: string, expiresAt: int)
    | Refresh(token: string, now: int, next: string, expiresAt: int)
    | Logout(token: string)

  function Handle(a: Auth, r: Request): Auth {
    match r
    case Login(userId, token, expiresAt) => CreateRefreshSession(a, userId, token, expiresAt)
    case Refresh(token, now, next, expiresAt) =>
      (match LookupRefresh(a, token, now)
       case ReuseDetected(familyId) => if familyId < |a.families| then RevokeFamily(a, familyId) else a
       case MayExchange(tokenId, familyId) =>
         if tokenId < |a.tokens| then Exchange(a, tokenId, familyId, next, expiresAt) else a
       case _ => a)
    case Logout(token) =>
      match FindToken(a.tokens, token)
      case None => a
      case Some(id) =>
        if a.tokens[id].familyId < |a.families| then RevokeFamily(a, a.tokens[id].familyId) else a
  }

  /** Generated tokens are non-empty and new. */
  predicate FreshToken(a: Auth, token: string) {
    token != "" && forall k :: 0 <= k < |a.tokens| ==> a.tokens[k].value != token
  }

  predicate Generated(a: Auth, r: Request) {
    match r
    case Login(_, token, _) => FreshToken(a, token)
    case Refresh(_, _, next, _) => FreshToken(a, next)
    case Logout(_) => true
  }

  // ---------- the chain ----------

  /** A family's tokens, oldest first. */
  function ChainOf(tokens: seq<Token>, familyId: nat): seq<nat> {
    if tokens == [] then []
    else
      var n := |tokens| - 1;
      var earlier := ChainOf(tokens[..n], familyId);
      if tokens[n].familyId == familyId then earlier + [n] else earlier
  }

  predicate Ascends(tokens: seq<Token>, c: seq<nat>, familyId: nat) {
    && (forall k :: 0 <= k < |c| ==> c[k] < |tokens| && tokens[c[k]].familyId == familyId)
    && (forall j, k :: 0 <= j < k < |c| ==> c[j] < c[k])
  }

  /** Its members, in strictly ascending order, are in the family... */
  lemma {:induction false} ChainAscends(tokens: seq<Token>, familyId: nat)
    ensures Ascends(tokens, ChainOf(tokens, familyId), familyId)
  {
    if tokens != [] {
      var n := |tokens| - 1;
      ChainAscends(tokens[..n], familyId);
      assert Ascends(tokens, ChainOf(tokens[..n], familyId), familyId);
    }
  }

  /** ...and no token of the family is left out. */
  lemma {:induction false} ChainComplete(tokens: seq<Token>, familyId: nat, i: nat) returns (k: nat)
    requires i < |tokens| && tokens[i].familyId == familyId
    ensures k < |ChainOf(tokens, familyId)| && ChainOf(tokens, familyId)[k] == i
  {
    var n := |tokens| - 1;
    if i == n {
      k := |ChainOf(tokens, familyId)| - 1;
    } else {
      k := ChainComplete(tokens[..n], familyId, i);
    }
  }

  lemma ChainAppend(tokens: seq<Token>, t: Token, familyId: nat)
    ensures ChainOf(tokens + [t], familyId)
         == ChainOf(tokens, familyId) + (if t.familyId == familyId then [|tokens|] else [])
  {
    assert (tokens + [t])[..|tokens|] == tokens;
  }

  /** The chain depends on the family column alone. */
  lemma {:induction false} ChainUnchanged(before: seq<Token>, after: seq<Token>, familyId: nat)
    requires |before| == |after|
    requires forall i :: 0 <= i < |before| ==> before[i].familyId == after[i].familyId
    ensures ChainOf(before, familyId) == ChainOf(after, familyId)
  {
    if before != [] {
      ChainUnchanged(before[..|before| - 1], after[..|before| - 1], familyId);
    }
  }

  /** The tokens form one chain through replacedById; all but its end are revoked, its end with the family. */
  predicate IsChain(tokens: seq<Token>, c: seq<nat>, familyRevoked: bool) {
    && c != []
    && (forall k :: 0 <= k < |c| ==> c[k] < |tokens|)
    && (forall k :: 0 <= k < |c| - 1 ==> tokens[c[k]].revoked && tokens[c[k]].replacedById == Some(c[k + 1]))
    && tokens[c[|c| - 1]].replacedById == None
    && tokens[c[|c| - 1]].revoked == familyRevoked
  }

  predicate FamilyOk(a: Auth, f: nat)
    requires f < |a.families|
  {
    IsChain(a.tokens, ChainOf(a.tokens, f), a.families[f].revoked)
  }

  predicate RowsOk(a: Auth) {
    && (forall i :: 0 <= i < |a.tokens| ==> a.tokens[i].familyId < |a.families| && a.tokens[i].value != "")
    && (forall i, j :: 0 <= i < j < |a.tokens| ==> a.tokens[i].value != a.tokens[j].value)
  }

  predicate Valid(a: Auth) {
    RowsOk(a) && forall f :: 0 <= f < |a.families| ==> FamilyOk(a, f)
  }

  predicate FamilyRevoked(a: Auth, f: nat)
    requires f < |a.families|
  {
    a.families[f].revoked && forall i :: 0 <= i < |a.tokens| && a.tokens[i].familyId == f ==> a.tokens[i].revoked
  }

  /** What the chain says about revocation: an unrevoked family has exactly one unrevoked token, a revoked
      family none. */
  lemma OneLiveToken(a: Auth, f: nat)
    requires Valid(a) && f < |a.families|
    ensures a.families[f].revoked ==> FamilyRevoked(a, f)
    ensures !a.families[f].revoked ==>
              var c := ChainOf(a.tokens, f);
              c != [] && forall i :: 0 <= i < |a.tokens| && a.tokens[i].familyId == f ==>
                (!a.tokens[i].revoked <==> i == c[|c| - 1])
  {
    assert FamilyOk(a, f);
    var c := ChainOf(a.tokens, f);
    forall i | 0 <= i < |a.tokens| && a.tokens[i].familyId == f
      ensures a.tokens[i].revoked || (!a.families[f].revoked && i == c[|c| - 1])
    {
      var k := ChainComplete(a.tokens, f, i);
    }
    ChainAscends(a.tokens, f);
  }

  lemma OnePosition(tokens: seq<Token>, c: seq<nat>, familyId: nat, k: nat, l: nat)
    requires Ascends(tokens, c, familyId) && k < |c| && l < |c| && c[k] == c[l]
    ensures k == l
  {
  }

  lemma LinkIsNext(a: Auth, i: nat, j: nat) returns (k: nat)
    requires Valid(a) && i < |a.tokens| && a.tokens[i].replacedById == Some(j)
    ensures var c := ChainOf(a.tokens, a.tokens[i].familyId);
            k + 1 < |c| && c[k] == i && c[k + 1] == j
  {
    var f := a.tokens[i].familyId;
    k := ChainComplete(a.tokens, f, i);
    assert FamilyOk(a, f);
    assert a.tokens[ChainOf(a.tokens, f)[k]].replacedById == Some(j);
  }

  /** The links through replacedById stay in the family, lead forward, and never meet: the chain is acyclic. */
  lemma LinksGoForward(a: Auth, i: nat, j: nat)
    requires Valid(a) && i < |a.tokens| && a.tokens[i].replacedById == Some(j)
    ensures i < j < |a.tokens| && a.tokens[j].familyId == a.tokens[i].familyId
    ensures forall h :: 0 <= h < |a.tokens| && a.tokens[h].replacedById == Some(j) ==> h == i
  {
    var f := a.tokens[i].familyId;
    ChainAscends(a.tokens, f);
    var k := LinkIsNext(a, i, j);
    forall h | 0 <= h < |a.tokens| && a.tokens[h].replacedById == Some(j)
      ensures h == i
    {
      var l := LinkIsNext(a, h, j);
      ChainAscends(a.tokens, a.tokens[h].familyId);
      assert a.tokens[h].familyId == a.tokens[j].familyId == f;
      OnePosition(a.tokens, ChainOf(a.tokens, f), f, k + 1, l + 1);
    }
  }

  lemma ChainKept(before: seq<Token>, after: seq<Token>, c: seq<nat>, familyRevoked: bool)
    requires IsChain(before, c, familyRevoked) && |before| <= |after|
    requires forall k :: 0 <= k < |c| ==> after[c[k]] == before[c[k]]
    ensures IsChain(after, c, familyRevoked)
  {
  }

  lemma {:induction false} NoChainYet(tokens: seq<Token>, familyId: nat)
    requires forall i :: 0 <= i < |tokens| ==> tokens[i].familyId != familyId
    ensures ChainOf(tokens, familyId) == []
  {
    if tokens != [] { NoChainYet(tokens[..|tokens| - 1], familyId); }
  }

  lemma CreateKeepsFamily(a: Auth, userId: nat, token: string, expiresAt: int, f: nat)
    requires RowsOk(a) && f <= |a.families| && (f < |a.families| ==> FamilyOk(a, f))
    ensures FamilyOk(CreateRefreshSession(a, userId, token, expiresAt), f)
  {
    var after := CreateRefreshSession(a, userId, token, expiresAt);
    ChainAppend(a.tokens, after.tokens[|a.tokens|], f);
    if f < |a.families| {
      ChainKept(a.tokens, after.tokens, ChainOf(a.tokens, f), a.families[f].revoked);
    } else {
      NoChainYet(a.tokens, f);
    }
  }

  lemma CreateKeepsValid(a: Auth, userId: nat, token: string, expiresAt: int)
    requires Valid(a) && FreshToken(a, token)
    ensures Valid(CreateRefreshSession(a, userId, token, expiresAt))
  {
    forall f | 0 <= f <= |a.families|
      ensures FamilyOk(CreateRefreshSession(a, userId, token, expiresAt), f)
    {
      if f < |a.families| { assert FamilyOk(a, f); }
      CreateKeepsFamily(a, userId, token, expiresAt, f);
    }
  }

  lemma RevokeKeepsFamily(a: Auth, familyId: nat, f: nat)
    requires familyId < |a.families| && f < |a.families| && FamilyOk(a, f)
    ensures FamilyOk(RevokeFamily(a, familyId), f)
  {
    ChainUnchanged(a.tokens, RevokeFamily(a, familyId).tokens, f);
    ChainAscends(a.tokens, f);
  }

  lemma RevokeKeepsRows(a: Auth, familyId: nat)
    requires familyId < |a.families| && RowsOk(a)
    ensures RowsOk(RevokeFamily(a, familyId))
  {
  }

  lemma RevokeKeepsValid(a: Auth, familyId: nat)
    requires Valid(a) && familyId < |a.families|
    ensures Valid(RevokeFamily(a, familyId))
  {
    RevokeKeepsRows(a, familyId);
    forall f | 0 <= f < |a.families|
      ensures FamilyOk(RevokeFamily(a, familyId), f)
    {
      RevokeKeepsFamily(a, familyId, f);
    }
  }

  lemma ExchangeChain(a: Auth, tokenId: nat, next: string, expiresAt: int, f: nat)
    requires tokenId < |a.tokens| && f < |a.families|
    ensures ChainOf(Exchange(a, tokenId, a.tokens[tokenId].familyId, next, expiresAt).tokens, f)
         == ChainOf(a.tokens, f) + (if f == a.tokens[tokenId].familyId then [|a.tokens|] else [])
  {
    var after := Exchange(a, tokenId, a.tokens[tokenId].familyId, next, expiresAt).tokens;
    var retired := after[..|a.tokens|];
    ChainUnchanged(a.tokens, retired, f);
    ChainAppend(retired, after[|a.tokens|], f);
    assert after == retired + [after[|a.tokens|]];
  }

  /** A new live end, with the old end retired in its favour. */
  lemma ChainExtends(before: seq<Token>, after: seq<Token>, c: seq<nat>, end: nat)
    requires IsChain(before, c, false) && |before| <= |after| && end < |after|
    requires forall k :: 0 <= k < |c| - 1 ==> after[c[k]] == before[c[k]]
    requires after[c[|c| - 1]].revoked && after[c[|c| - 1]].replacedById == Some(end)
    requires !after[end].revoked && after[end].replacedById == None
    ensures IsChain(after, c + [end], false)
  {
  }

  lemma ExchangeKeepsFamily(a: Auth, tokenId: nat, next: string, expiresAt: int, f: nat)
    requires tokenId < |a.tokens| && f < |a.families| && FamilyOk(a, f)
    requires f == a.tokens[tokenId].familyId ==>
               var c := ChainOf(a.tokens, f); !a.families[f].revoked && c != [] && tokenId == c[|c| - 1]
    ensures FamilyOk(Exchange(a, tokenId, a.tokens[tokenId].familyId, next, expiresAt), f)
  {
    var c, after := ChainOf(a.tokens, f), Exchange(a, tokenId, a.tokens[tokenId].familyId, next, expiresAt);
    ExchangeChain(a, tokenId, next, expiresAt, f);
    ChainAscends(a.tokens, f);
    if f == a.tokens[tokenId].familyId {
      ChainExtends(a.tokens, after.tokens, c, |a.tokens|);
    } else {
      ChainKept(a.tokens, after.tokens, c, a.families[f].revoked);
    }
  }

  lemma ExchangeKeepsValid(a: Auth, tokenId: nat, next: string, expiresAt: int)
    requires Valid(a) && FreshToken(a, next) && tokenId < |a.tokens| && !a.tokens[tokenId].revoked
    requires !a.families[a.tokens[tokenId].familyId].revoked
    ensures Valid(Exchange(a, tokenId, a.tokens[tokenId].familyId, next, expiresAt))
  {
    OneLiveToken(a, a.tokens[tokenId].familyId);
    forall f | 0 <= f < |a.families|
      ensures FamilyOk(Exchange(a, tokenId, a.tokens[tokenId].familyId, next, expiresAt), f)
    {
      assert FamilyOk(a, f);
      ExchangeKeepsFamily(a, tokenId, next, expiresAt, f);
    }
  }

  lemma HandleKeepsValid(a: Auth, r: Request)
    requires Valid(a) && Generated(a, r)
    ensures Valid(Handle(a, r))
  {
    match r
    case Login(userId, token, expiresAt) => CreateKeepsValid(a, userId, token, expiresAt);
    case Refresh(token, now, next, expiresAt) =>
      var v := LookupRefresh(a, token, now);
      if v.ReuseDetected? { RevokeKeepsValid(a, v.familyId); }
      if v.MayExchange? { ExchangeKeepsValid(a, v.tokenId, next, expiresAt); }
    case Logout(token) =>
      if FindToken(a.tokens, token).Some? {
        RevokeKeepsValid(a, a.tokens[FindToken(a.tokens, token).value].familyId);
      }
  }

  // ---------- what never goes back ----------

  predicate TokenEvolves(t: Token, t': Token) {
    && t'.familyId == t.familyId && t'.value == t.value && t'.expiresAt == t.expiresAt
    && (t.revoked ==> t'.revoked)
  }

  predicate FamilyEvolves(f: Family, f': Family) {
    f'.userId == f.userId && (f.revoked ==> f'.revoked)
  }

  /** Rows stay, and revocation of a family or a token is never taken back. */
  predicate AuthEvolves(a: Auth, a': Auth) {
    && |a.families| <= |a'.families| && |a.tokens| <= |a'.tokens|
    && (forall f :: 0 <= f < |a.families| ==> FamilyEvolves(a.families[f], a'.families[f]))
    && (forall i :: 0 <= i < |a.tokens| ==> TokenEvolves(a.tokens[i], a'.tokens[i]))
  }

  lemma AuthEvolvesTransitive(a0: Auth, a1: Auth, a2: Auth)
    requires AuthEvolves(a0, a1) && AuthEvolves(a1, a2)
    ensures AuthEvolves(a0, a2)
  {
    forall f | 0 <= f < |a0.families| ensures FamilyEvolves(a0.families[f], a2.families[f]) {
      assert FamilyEvolves(a0.families[f], a1.families[f]) && FamilyEvolves(a1.families[f], a2.families[f]);
    }
    forall i | 0 <= i < |a0.tokens| ensures TokenEvolves(a0.tokens[i], a2.tokens[i]) {
      assert TokenEvolves(a0.tokens[i], a1.tokens[i]) && TokenEvolves(a1.tokens[i], a2.tokens[i]);
    }
  }

  lemma HandleEvolves(a: Auth, r: Request)
    ensures AuthEvolves(a, Handle(a, r))
  {
  }

  lemma FindTokenUnique(tokens: seq<Token>, i: nat)
    requires forall j, k :: 0 <= j < k < |tokens| ==> tokens[j].value != tokens[k].value
    requires i < |tokens|
    ensures FindToken(tokens, tokens[i].value) == Some(i)
  {
  }

  /** The live token of a family: the end of its chain, while the family is not revoked. */
  predicate IsLive(a: Auth, id: nat)
    requires id < |a.tokens| && a.tokens[id].familyId < |a.families|
  {
    var c := ChainOf(a.tokens, a.tokens[id].familyId);
    !a.families[a.tokens[id].familyId].revoked && c != [] && id == c[|c| - 1]
  }

  /** A stored token is exchanged exactly if it is live, not expired, and its account active. */
  lemma MayExchangeIff(a: Auth, id: nat, now: int)
    requires Valid(a) && id < |a.tokens|
    ensures var t := a.tokens[id];
            LookupRefresh(a, t.value, now).MayExchange?
            <==> IsLive(a, id) && now < t.expiresAt && a.families[t.familyId].userId in a.activeUsers
  {
    FindTokenUnique(a.tokens, id);
    OneLiveToken(a, a.tokens[id].familyId);
    assert FamilyOk(a, a.tokens[id].familyId);
  }

  /** And when it is refused, why: the family's revocation first, then reuse, then expiry, then the account. */
  lemma RefusedBecause(a: Auth, id: nat, now: int)
    requires Valid(a) && id < |a.tokens|
    ensures var t := a.tokens[id];
            var v := LookupRefresh(a, t.value, now);
            && (v == SessionRevoked <==> a.families[t.familyId].revoked)
            && (v == ReuseDetected(t.familyId) <==> !a.families[t.familyId].revoked && !IsLive(a, id))
            && (v == TokenExpired <==> IsLive(a, id) && t.expiresAt <= now)
            && (v == AccountDisabled
                <==> IsLive(a, id) && now < t.expiresAt && a.families[t.familyId].userId !in a.activeUsers)
  {
    FindTokenUnique(a.tokens, id);
    OneLiveToken(a, a.tokens[id].familyId);
    assert FamilyOk(a, a.tokens[id].familyId);
  }

  /** A token nobody issued is invalid, a missing one a bad request. */
  lemma UnknownToken(a: Auth, token: string, now: int)
    requires Valid(a) && forall i :: 0 <= i < |a.tokens| ==> a.tokens[i].value != token
    ensures LookupRefresh(a, token, now) == if token == "" then BadRequest else Invalid
  {
  }

  lemma NewEndIsLive(a: Auth, t: Token, id: nat)
    requires t.familyId < |a.families| && !a.families[t.familyId].revoked && id < |a.tokens|
    requires id == |a.tokens| - 1 && a.tokens[id] == t
    ensures IsLive(a, id)
  {
    ChainAppend(a.tokens[..id], t, t.familyId);
    assert a.tokens[..id] + [t] == a.tokens;
  }

  /** Logging in starts a family of the user's own, whose token works until it expires. */
  lemma LoginThenRefresh(a: Auth, userId: nat, token: string, expiresAt: int, now: int)
    requires Valid(a) && FreshToken(a, token)
    ensures var after := Handle(a, Login(userId, token, expiresAt));
            && after.families == a.families + [Family(userId, false)]
            && |after.tokens| == |a.tokens| + 1 && after.tokens[..|a.tokens|] == a.tokens
            && (LookupRefresh(after, token, now).MayExchange? <==> now < expiresAt && userId in a.activeUsers)
  {
    var r := Login(userId, token, expiresAt);
    var after := Handle(a, r);
    HandleKeepsValid(a, r);
    NewEndIsLive(after, after.tokens[|a.tokens|], |a.tokens|);
    MayExchangeIff(after, |a.tokens|, now);
  }

  /** A refresh that succeeds retires the token it was given for one of the same family, which works until it
      expires; the old one now counts as reuse. */
  lemma RefreshRotates(a: Auth, r: Request, id: nat, later: int)
    requires Valid(a) && Generated(a, r) && r.Refresh? && id < |a.tokens| && r.token == a.tokens[id].value
    requires LookupRefresh(a, r.token, r.now).MayExchange?
    ensures var after, f := Handle(a, r), a.tokens[id].familyId;
            && after.families == a.families && |after.tokens| == |a.tokens| + 1
            && after.tokens[|a.tokens|].familyId == f
            && (LookupRefresh(after, r.next, later).MayExchange? <==> later < r.expiresAt)
            && LookupRefresh(after, r.token, later) == ReuseDetected(f)
  {
    var after := Handle(a, r);
    FindTokenUnique(a.tokens, id);
    MayExchangeIff(a, id, r.now);
    HandleKeepsValid(a, r);
    NewEndIsLive(after, after.tokens[|a.tokens|], |a.tokens|);
    MayExchangeIff(after, |a.tokens|, later);
    RefusedBecause(after, id, later);
  }

  /** Logging out revokes the whole family of the presented token, whether or not the token is still live. */
  lemma LogoutRevokes(a: Auth, id: nat)
    requires Valid(a) && id < |a.tokens|
    ensures a.tokens[id].familyId < |Handle(a, Logout(a.tokens[id].value)).families|
    ensures FamilyRevoked(Handle(a, Logout(a.tokens[id].value)), a.tokens[id].familyId)
  {
    FindTokenUnique(a.tokens, id);
  }

  function Presented(r: Request): string {
    if r.Refresh? || r.Logout? then r.token else ""
  }

  /** A request touches the family of the token it presents and no other. */
  lemma OtherFamiliesUntouched(a: Auth, r: Request, i: nat)
    requires Valid(a) && i < |a.tokens|
    requires forall j :: 0 <= j < |a.tokens| && a.tokens[j].value == Presented(r) ==>
        a.tokens[j].familyId != a.tokens[i].familyId
    ensures var after := Handle(a, r);
            && i < |after.tokens| && after.tokens[i] == a.tokens[i]
            && |a.families| <= |after.families|
            && after.families[a.tokens[i].familyId] == a.families[a.tokens[i].familyId]
  {
  }

  // ---------- runs ----------

  predicate IsRun(states: seq<Auth>, requests: seq<Request>) {
    && |states| == |requests| + 1 && Valid(states[0])
    && (forall k :: 0 <= k < |requests| ==> StepAt(states, requests, k))
  }

  predicate StepAt(states: seq<Auth>, requests: seq<Request>, k: nat)
    requires k < |requests| < |states|
  {
    Generated(states[k], requests[k]) && states[k + 1] == Handle(states[k], requests[k])
  }

  /** After any requests at all, every family is one finite acyclic chain. */
  lemma {:induction false} RunKeepsChains(states: seq<Auth>, requests: seq<Request>, k: nat)
    requires IsRun(states, requests) && k < |states|
    ensures Valid(states[k])
  {
    if k > 0 {
      RunKeepsChains(states, requests, k - 1);
      assert StepAt(states, requests, k - 1);
      HandleKeepsValid(states[k - 1], requests[k - 1]);
    }
  }

  lemma {:induction false} RunEvolves(states: seq<Auth>, requests: seq<Request>, i: nat, j: nat)
    requires IsRun(states, requests) && i <= j < |states|
    ensures AuthEvolves(states[i], states[j])
    decreases j
  {
    if i < j {
      RunEvolves(states, requests, i, j - 1);
      assert StepAt(states, requests, j - 1);
      HandleEvolves(states[j - 1], requests[j - 1]);
      AuthEvolvesTransitive(states[i], states[j - 1], states[j]);
    }
  }

  /** Request k exchanges token row `id`. */
  predicate ExchangesAt(states: seq<Auth>, requests: seq<Request>, k: nat, id: nat)
    requires k < |requests| && k < |states|
  {
    && requests[k].Refresh?
    && var v := LookupRefresh(states[k], requests[k].token, requests[k].now);
    v.MayExchange? && v.tokenId == id
  }

  /** Each token is exchanged at most once in any run. */
  lemma ExchangedAtMostOnce(states: seq<Auth>, requests: seq<Request>, k1: nat, k2: nat, id: nat)
    requires IsRun(states, requests) && k1 < |requests| && k2 < |requests|
    requires ExchangesAt(states, requests, k1, id) && ExchangesAt(states, requests, k2, id)
    ensures k1 == k2
  {
    if k1 < k2 { ExchangedStaysRevoked(states, requests, k1, k2, id); }
    if k2 < k1 { ExchangedStaysRevoked(states, requests, k2, k1, id); }
  }

  lemma ExchangedStaysRevoked(states: seq<Auth>, requests: seq<Request>, k: nat, j: nat, id: nat)
    requires IsRun(states, requests) && k < |requests| && k < j < |states| && ExchangesAt(states, requests, k, id)
    ensures id < |states[j].tokens| && states[j].tokens[id].revoked
  {
    assert StepAt(states, requests, k);
    RunEvolves(states, requests, k + 1, j);
    assert TokenEvolves(states[k + 1].tokens[id], states[j].tokens[id]);
  }

  lemma RevokedTokenIsRefused(a: Auth, id: nat, r: Request)
    requires Valid(a) && id < |a.tokens| && a.tokens[id].revoked && r.Refresh? && r.token == a.tokens[id].value
    ensures var v := LookupRefresh(a, r.token, r.now); v.SessionRevoked? || v.ReuseDetected?
    ensures a.tokens[id].familyId < |Handle(a, r).families| && Handle(a, r).families[a.tokens[id].familyId].revoked
  {
    FindTokenUnique(a.tokens, id);
  }

  /** Presenting a token that was exchanged before fails and leaves its whole family revoked, so the tokens
      that replaced it are of no use either. */
  lemma ReuseRevokesFamily(states: seq<Auth>, requests: seq<Request>, k: nat, j: nat, id: nat)
    requires IsRun(states, requests) && k < j < |requests| && ExchangesAt(states, requests, k, id)
    requires id < |states[j].tokens| && requests[j].Refresh? && requests[j].token == states[j].tokens[id].value
    ensures var v := LookupRefresh(states[j], requests[j].token, requests[j].now); v.SessionRevoked? || v.ReuseDetected?
    ensures var f := states[j].tokens[id].familyId;
            f < |states[j + 1].families| && FamilyRevoked(states[j + 1], f)
  {
    ExchangedStaysRevoked(states, requests, k, j, id);
    RunKeepsChains(states, requests, j);
    RunKeepsChains(states, requests, j + 1);
    RevokedTokenIsRefused(states[j], id, requests[j]);
    assert StepAt(states, requests, j);
    OneLiveToken(states[j + 1], states[j].tokens[id].familyId);
  }

  /** After a logout no token of the family is ever accepted again. */
  lemma NoRefreshAfterLogout(states: seq<Auth>, requests: seq<Request>, k: nat, id: nat, j: nat, i: nat, now: int)
    requires IsRun(states, requests) && k < |requests| && k < j < |states|
    requires id < |states[k].tokens| && requests[k] == Logout(states[k].tokens[id].value)
    requires i < |states[j].tokens| && states[j].tokens[i].familyId == states[k].tokens[id].familyId
    ensures LookupRefresh(states[j], states[j].tokens[i].value, now) == SessionRevoked
  {
    var f := states[k].tokens[id].familyId;
    RunKeepsChains(states, requests, k);
    LogoutRevokes(states[k], id);
    assert StepAt(states, requests, k);
    RunEvolves(states, requests, k + 1, j);
    assert FamilyEvolves(states[k + 1].families[f], states[j].families[f]);
    RunKeepsChains(states, requests, j);
    RefusedBecause(states[j], i, now);
  }

  // ---------- in place ----------

  datatype Session = Session(refreshToken: string) | Refused(verdict: Verdict)

  class TokenStore {
    const activeUsers: set<nat>
    var families: seq<Family>
    var tokens: seq<Token>

    constructor (a: Auth)
      ensures Contents() == a
    {
      activeUsers := a.activeUsers;
      families, tokens := a.families, a.tokens;
    }

    function Contents(): Auth
      reads this
    {
      Auth(activeUsers, families, tokens)
    }

    method Login(userId: nat, token: string, expiresAt: int)
      modifies this`families, this`tokens
      ensures Contents() == Handle(old(Contents()), Request.Login(userId, token, expiresAt))
    {
      var familyId := |families|;
      families := families + [Family(userId, false)];
      tokens := tokens + [Token(familyId, token, false, None, expiresAt)];
    }

    method RevokeWholeFamily(familyId: nat)
      requires familyId < |families|
      modifies this`families, this`tokens
      ensures Contents() == RevokeFamily(old(Contents()), familyId)
    {
      families := families[familyId := families[familyId].(revoked := true)];
      ghost var was := tokens;
      for i := 0 to |tokens|
        invariant |tokens| == |was| && families == RevokeFamily(old(Contents()), familyId).families
        invariant forall k :: 0 <= k < i ==> tokens[k] == RevokeToken(was[k], familyId)
        invariant forall k :: i <= k < |tokens| ==> tokens[k] == was[k]
      {
        if tokens[i].familyId == familyId {
          tokens := tokens[i := tokens[i].(revoked := true)];
        }
      }
      assert tokens == RevokeFamily(old(Contents()), familyId).tokens;
    }

    method RefreshAccessToken(token: string, now: int, next: string, expiresAt: int) returns (r: Session)
      requires Valid(Contents())
      modifies this`families, this`tokens
      ensures Contents() == Handle(old(Contents()), Refresh(token, now, next, expiresAt))
      ensures var v := LookupRefresh(old(Contents()), token, now);
              r == if v.MayExchange? then Session(next) else Refused(v)
    {
      if token == "" { return Refused(BadRequest); }
      var found := FindToken(tokens, token);
      if found.None? { return Refused(Invalid); }
      var stored := tokens[found.value];
      var family := families[stored.familyId];
      if family.revoked { return Refused(SessionRevoked); }
      if stored.revoked {
        RevokeWholeFamily(stored.familyId);
        return Refused(ReuseDetected(stored.familyId));
      }
      if stored.expiresAt <= now { return Refused(TokenExpired); }
      if family.userId !in activeUsers { return Refused(AccountDisabled); }
      var replacement := |tokens|;
      tokens := tokens + [Token(stored.familyId, next, false, None, expiresAt)];
      tokens := tokens[found.value := stored.(revoked := true, replacedById := Some(replacement))];
      assert tokens == Exchange(old(Contents()), found.value, stored.familyId, next, expiresAt).tokens;
      return Session(next);
    }

    /** An unknown token is no error, a missing one is. */
    method LogOut(token: string) returns (refused: Option<Verdict>)
      requires Valid(Contents())
      modifies this`families, this`tokens
      ensures Contents() == Handle(old(Contents()), Logout(token))
      ensures refused == if token == "" then Some(BadRequest) else None
    {
      if token == "" { return Some(BadRequest); }
      refused := None;
      var found := FindToken(tokens, token);
      if found.Some? {
        RevokeWholeFamily(tokens[found.value].familyId);
      }
    }
  }
}
