/** The server's dispatch states, and the server as the agent can observe it. */
module Dispatching {
  import opened Options

  datatype DispatchState =
    | Waiting | Claimed | Started
    | Succeeded | Failed | Cancelled | Lost
    | CancelRequested | CancelUnconfirmed | CleanupUnconfirmed

  datatype ResultState = ResultSucceeded | ResultFailed | ResultCleanupUnconfirmed

  predicate CanTransition(from: DispatchState, to: DispatchState) {
    match from
    case Waiting => to == Claimed || to == Cancelled
    case Claimed => to == Waiting || to == Started || to == CancelRequested || to == Cancelled
    case Started =>
      || to == Succeeded || to == Failed || to == Cancelled || to == Lost
      || to == CancelRequested || to == CleanupUnconfirmed
    case CancelRequested =>
      to == Cancelled || to == CancelUnconfirmed || to == Lost || to == CleanupUnconfirmed
    case _ => false
  }

  function Transition(from: DispatchState, to: DispatchState): Option<DispatchState> {
    if CanTransition(from, to) then Some(to) else None
  }

  /** A terminal result, accepted only after work has started. */
  function Complete(state: DispatchState, result: ResultState): Option<DispatchState> {
    match state
    case Started =>
      Transition(state, match result
        case ResultSucceeded => Succeeded
        case ResultFailed => Failed
        case ResultCleanupUnconfirmed => CleanupUnconfirmed)
    case CancelRequested =>
      if result == ResultCleanupUnconfirmed then Transition(state, CleanupUnconfirmed) else None
    case _ => None
  }

  function Reclaim(state: DispatchState): Option<DispatchState> {
    if state == Started then None else Transition(state, Waiting)
  }

  predicate PastStart(state: DispatchState) {
    state != Waiting && state != Claimed
  }

  /** No sequence of transitions leads back to a state from which work could start again, and only
      a claim that never started can be reclaimed. */
  lemma {:induction false} StartedWorkIsNeverReplayed(path: seq<DispatchState>)
    requires |path| > 0 && PastStart(path[0])
    requires IsRun(path)
    ensures forall i | 0 <= i < |path| :: PastStart(path[i]) && Reclaim(path[i]) == None
  {
    if |path| > 1 {
      assert CanTransition(path[0], path[1]);
      StartedWorkIsNeverReplayed(path[1..]);
      forall i | 0 <= i < |path|
        ensures PastStart(path[i]) && Reclaim(path[i]) == None
      {
        if i > 0 { assert path[i] == path[1..][i - 1]; }
      }
    }
  }

  predicate IsRun(path: seq<DispatchState>) {
    forall k | 0 <= k < |path| - 1 :: CanTransition(path[k], path[k + 1])
  }

  /** In any run of the server an accepted result is its last step, and no result follows it. */
  lemma ResultIsAcceptedOnce(path: seq<DispatchState>, i: nat, first: ResultState, second: ResultState)
    requires IsRun(path)
    requires i < |path| - 1 && Complete(path[i], first) == Some(path[i + 1])
    ensures |path| == i + 2
    ensures Complete(path[i + 1], second) == None
    ensures forall first', k | 0 <= k < i :: Complete(path[k], first') != Some(path[k + 1])
  {
    if i + 2 < |path| {
      NextStep(path, i + 1);
      assert false;
    }
    forall first', k | 0 <= k < i
      ensures Complete(path[k], first') != Some(path[k + 1])
    {
      NextStep(path, k + 1);
    }
  }

  lemma NextStep(path: seq<DispatchState>, k: nat)
    requires IsRun(path) && k + 1 < |path|
    ensures CanTransition(path[k], path[k + 1])
  {
  }

  /** One deployment: its state and the token of its current claim. */
  datatype Dispatch = Dispatch(state: DispatchState, token: int)

  datatype Move = Create(id: int) | Advance(id: int, to: DispatchState, token: int)

  /** Tokens are never issued twice. */
  datatype Server = Server(dispatch: map<int, Dispatch>, issued: set<int>)
  {
    /** Whatever clients, other agents, operators and timeouts make the server do next. */
    function Step(m: Move): Server {
      match m
      case Create(id) =>
        if id in dispatch then this else Server(dispatch[id := Dispatch(Waiting, 0)], issued)
      case Advance(id, to, token) =>
        if id !in dispatch || !CanTransition(dispatch[id].state, to) then this
        else if to != Claimed then Server(dispatch[id := Dispatch(to, dispatch[id].token)], issued)
        else if token in issued then this
        else Server(dispatch[id := Dispatch(Claimed, token)], issued + {token})
    }

    function Run(moves: seq<Move>): Server
      decreases |moves|
    {
      if moves == [] then this else Step(moves[0]).Run(moves[1..])
    }

    predicate Begun(id: int) {
      id in dispatch && PastStart(dispatch[id].state)
    }

    /** Start is accepted only for the current token of a claim that has not started. */
    predicate AcceptsStart(id: int, token: int) {
      id in dispatch && dispatch[id] == Dispatch(Claimed, token)
    }
  }

  lemma {:induction false} RunKeepsBegun(s: Server, moves: seq<Move>, id: int)
    requires s.Begun(id)
    ensures s.Run(moves).Begun(id) && forall token :: !s.Run(moves).AcceptsStart(id, token)
    decreases |moves|
  {
    if moves != [] {
      assert s.Step(moves[0]).Begun(id);
      RunKeepsBegun(s.Step(moves[0]), moves[1..], id);
    }
  }
}
