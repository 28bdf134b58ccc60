/**
  Two runs in which an exchange lands on a token that was no longer live: the chain
  forks, or a revoked family is left with a live token.
 */
module TokenWitness {
  import opened Wrappers
  import opened Tokens
  import opened TokenProtocol

  function Live(value: string): Token {
    Token(0, value, false, None, 100)
  }

  function Retired(next: nat): Token {
    Token(0, "r", true, Some(next), 100)
  }

  function With(familyRevoked: bool, tokens: seq<Token>, requests: seq<TokenProtocol.Request>): State {
    State(Auth({0}, [Family(0, familyRevoked)], tokens), 0, requests)
  }

  const EXCHANGING := Refreshing("r", MayExchange(0, 0))

  lemma StartIsValid()
    ensures RowsOk(With(false, [Live("r")], []).auth) && Valid(With(false, [Live("r")], []).auth)
  {
    var empty := Auth({0}, [], []);
    CreateKeepsValid(empty, 0, "r", 100);
    assert CreateRefreshSession(empty, 0, "r", 100) == With(false, [Live("r")], []).auth;
  }

  lemma FindR(tokens: seq<Token>)
    requires |tokens| == 1 && tokens[0].value == "r"
    ensures FindToken(tokens, "r") == Some(0)
  {
  }

  lemma FourSteps(states: seq<State>, steps: seq<Step>)
    requires |steps| == 4 && |states| == 5
    requires states[0] == With(false, [Live("r")], [])
    requires TokenProtocol.StepAt(states, steps, 0) && TokenProtocol.StepAt(states, steps, 1)
        && TokenProtocol.StepAt(states, steps, 2)
    requires TokenProtocol.StepAt(states, steps, 3)
    ensures TokenProtocol.IsRun(states, steps) && Valid(states[0].auth)
  {
    StartIsValid();
  }

  // ---------- two refreshes of one token ----------

  function ForkSteps(): seq<Step> {
    [StartRefresh("r"), StartRefresh("r"), Commit(0, "n1", 100), Commit(1, "n2", 100)]
  }

  function ForkStates(): seq<State> {
    [
      With(false, [Live("r")], []),
      With(false, [Live("r")], [EXCHANGING]),
      With(false, [Live("r")], [EXCHANGING, EXCHANGING]),
      With(false, [Retired(1), Live("n1")], [Done(Succeeded("n1")), EXCHANGING]),
      With(false, [Retired(2), Live("n1"), Live("n2")], [Done(Succeeded("n1")), Done(Succeeded("n2"))])
    ]
  }

  lemma ForkStarts()
    ensures TokenProtocol.StepAt(ForkStates(), ForkSteps(), 0) && TokenProtocol.StepAt(ForkStates(), ForkSteps(), 1)
  {
    FindR([Live("r")]);
  }

  lemma ForkCommits()
    ensures TokenProtocol.StepAt(ForkStates(), ForkSteps(), 2) && TokenProtocol.StepAt(ForkStates(), ForkSteps(), 3)
  {
    assert "n1" != "r" && "n2" != "r" && "n1"[1] != "n2"[1];
  }

  /** Both refreshes of one token succeed, and the family ends with two live tokens that each pass the lookup. */
  lemma TwoRefreshesFork()
    ensures TokenProtocol.IsRun(ForkStates(), ForkSteps()) && Valid(ForkStates()[0].auth)
    ensures LateExchange(ForkStates()[3], ForkSteps()[3])
    ensures var last := ForkStates()[4];
            && !Valid(last.auth)
            && last.requests == [Done(Succeeded("n1")), Done(Succeeded("n2"))]
            && LookupRefresh(last.auth, "n1", 0) == MayExchange(1, 0)
            && LookupRefresh(last.auth, "n2", 0) == MayExchange(2, 0)
  {
    ForkStarts();
    ForkCommits();
    FourSteps(ForkStates(), ForkSteps());
    TokenProtocol.RunInvariant(ForkStates(), ForkSteps(), 4);
    FindTokenUnique(ForkStates()[4].auth.tokens, 1);
    FindTokenUnique(ForkStates()[4].auth.tokens, 2);
    if Valid(ForkStates()[4].auth) { OneLiveToken(ForkStates()[4].auth, 0); }
  }

  // ---------- a logout between lookup and exchange ----------

  function RaceSteps(): seq<Step> {
    [StartRefresh("r"), StartLogout("r"), Commit(1, "x", 100), Commit(0, "n1", 100)]
  }

  function RaceStates(): seq<State> {
    [
      With(false, [Live("r")], []),
      With(false, [Live("r")], [EXCHANGING]),
      With(false, [Live("r")], [EXCHANGING, LoggingOut("r", 0)]),
      With(true, [Token(0, "r", true, None, 100)], [EXCHANGING, Done(LoggedOut)]),
      With(true, [Retired(1), Live("n1")], [Done(Succeeded("n1")), Done(LoggedOut)])
    ]
  }

  lemma RaceStarts()
    ensures TokenProtocol.StepAt(RaceStates(), RaceSteps(), 0) && TokenProtocol.StepAt(RaceStates(), RaceSteps(), 1)
  {
    FindR([Live("r")]);
  }

  lemma RaceCommits()
    ensures TokenProtocol.StepAt(RaceStates(), RaceSteps(), 2) && TokenProtocol.StepAt(RaceStates(), RaceSteps(), 3)
  {
    assert "x" != "r" && "n1" != "r";
  }

  /** The refresh is answered with a live token of a family that is already revoked, which the next lookup refuses. */
  lemma LogoutRaceLeavesLiveToken()
    ensures TokenProtocol.IsRun(RaceStates(), RaceSteps()) && Valid(RaceStates()[0].auth)
    ensures LateExchange(RaceStates()[3], RaceSteps()[3])
    ensures var last := RaceStates()[4];
            && !Valid(last.auth) && last.auth.families[0].revoked && !last.auth.tokens[1].revoked
            && last.requests == [Done(Succeeded("n1")), Done(LoggedOut)]
            && LookupRefresh(last.auth, "n1", 0) == SessionRevoked
  {
    RaceStarts();
    RaceCommits();
    FourSteps(RaceStates(), RaceSteps());
    TokenProtocol.RunInvariant(RaceStates(), RaceSteps(), 4);
    FindTokenUnique(RaceStates()[4].auth.tokens, 1);
    if Valid(RaceStates()[4].auth) { OneLiveToken(RaceStates()[4].auth, 0); }
  }
}
