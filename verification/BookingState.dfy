/** The booking life cycle (src/services/booking-state.ts). */
module BookingState {
  import opened Wrappers

  datatype Status = RESERVED | CONFIRMED | CANCELLED | EXPIRED

  /** The transition table. */
  function AllowedTransitions(from: Status): seq<Status> {
    match from
    case RESERVED => [CONFIRMED, CANCELLED, EXPIRED]
    case CONFIRMED => [CANCELLED]
    case CANCELLED => []
    case EXPIRED => []
  }

  predicate CanTransition(from: Option<Status>, to: Status) {
    match from
    case None => to == RESERVED
    case Some(f) => to in AllowedTransitions(f)
  }

  /** A booking starts as RESERVED, may be confirmed, cancelled or expired from there, and cancelled once confirmed;
      nothing else. */
  lemma AllowedMoves(from: Option<Status>, to: Status)
    ensures CanTransition(from, to)
       <==> || (from == None && to == RESERVED)
            || (from == Some(RESERVED) && to != RESERVED)
            || (from == Some(CONFIRMED) && to == CANCELLED)
  {
    if from == Some(RESERVED) {
      var next := AllowedTransitions(RESERVED);
      assert next[0] == CONFIRMED && next[1] == CANCELLED && next[2] == EXPIRED;
    }
    if from == Some(CONFIRMED) { assert AllowedTransitions(CONFIRMED)[0] == CANCELLED; }
  }

  function AssertTransition(from: Option<Status>, to: Status): (r: Result<()>)
    ensures r.Ok? <==> CanTransition(from, to)
    ensures r.Err? ==> r.error.Conflict?
  {
    if CanTransition(from, to) then Ok(())
    else if from.None? then Err(Conflict("Invalid initial booking status"))
    else Err(Conflict("Cannot transition booking"))
  }

  predicate IsCancellable(status: Status) {
    status == RESERVED || status == CONFIRMED
  }

  predicate IsFinal(status: Status) {
    AllowedTransitions(status) == []
  }

  /** The cancellability test and the transition table agree. */
  lemma CancellableMeansTransition(status: Status)
    ensures IsCancellable(status) <==> CanTransition(Some(status), CANCELLED)
    ensures IsCancellable(status) <==> !IsFinal(status)
  {
    assert CANCELLED in AllowedTransitions(RESERVED) by { assert AllowedTransitions(RESERVED)[1] == CANCELLED; }
    assert CANCELLED in AllowedTransitions(CONFIRMED) by { assert AllowedTransitions(CONFIRMED)[0] == CANCELLED; }
  }

  /** How far a booking has come: every allowed move goes strictly up, RESERVED is only a start. */
  function Rank(status: Status): nat {
    match status
    case RESERVED => 0
    case CONFIRMED => 1
    case CANCELLED => 2
    case EXPIRED => 2
  }

  /** A chain of allowed moves: each status may follow the one before it. */
  predicate IsPath(path: seq<Status>) {
    forall k :: 0 < k < |path| ==> CanTransition(Some(path[k - 1]), path[k])
  }

  /** The life cycle is acyclic, so no booking can make more than two moves. */
  lemma {:induction false} PathsAreShort(path: seq<Status>)
    requires path != [] && IsPath(path)
    ensures |path| <= 3
    ensures forall k :: 0 < k < |path| ==> path[k] != RESERVED
    ensures Rank(path[0]) + |path| - 1 <= Rank(path[|path| - 1])
  {
    if |path| > 1 {
      var front := path[..|path| - 1];
      PathsAreShort(front);
      assert CanTransition(Some(path[|path| - 2]), path[|path| - 1]);
    }
  }
}
