/** The pairing session: a one-time code is traded for mutual trust. */
module PairingProtocol {
  import opened Options

  /** A parsed code, or the zero value. Its hash is injective on the bytes and ignores `valid`. */
  datatype Code = Code(bytes: int, valid: bool)

  datatype Hash = Hash(bytes: int)

  datatype Pin = Pin(digest: int, valid: bool)
  {
    predicate Matches(other: Pin) {
      valid && other.valid && digest == other.digest
    }
  }

  /** 0 is the zero value of an endpoint, and the zero time. */
  datatype Offer = Offer(code: Code, agentPin: Pin, expiresAt: int)

  datatype Confirmation = Confirmation(code: Code, observedAgent: Pin, serverPin: Pin, endpoint: int)

  datatype Status = Pending | Paired | Expired

  datatype State = State(codeHash: Hash, expiresAt: int, expectedAgent: Pin, status: Status,
                         agent: Pin, server: Pin, endpoint: int)

  datatype Outcome =
    | Ok | CodeUsed | CodeExpired | CodeMismatch | AgentMismatch | InvalidConfirmation | InvalidOffer
    | CommitFailed

  const ZERO_PIN := Pin(0, false)

  predicate Presents(s: State, c: Confirmation) {
    s.codeHash == Hash(c.code.bytes) && s.expectedAgent.Matches(c.observedAgent)
  }

  /** What establishes trust, given a clock and a valid, matching confirmation. */
  predicate Acceptable(s: State, now: int, c: Confirmation) {
    && s.status == Pending && now < s.expiresAt && c.code.valid && Presents(s, c)
    && c.serverPin.valid && c.endpoint != 0
  }

  /** A repeated confirmation of the trust that is established already. */
  predicate Repeats(s: State, c: Confirmation) {
    s.status == Paired && Presents(s, c) && s.server == c.serverPin && s.endpoint == c.endpoint
  }

  class PairingSession {
    /** None for the zero value of a session. */
    var current: Option<State>
    /** The confirmations whose commit succeeded. */
    ghost var committed: seq<Confirmation>
    ghost var offered: Option<Offer>

    ghost predicate Valid()
      reads this
    {
      current.Some? ==>
        && offered.Some? && offered.value.code.valid && offered.value.agentPin.valid
        && current.value.codeHash == Hash(offered.value.code.bytes)
        && current.value.expectedAgent == offered.value.agentPin
        && current.value.expiresAt == offered.value.expiresAt
        && match current.value.status
           case Paired => Established()
           case _ => committed == []
    }

    /** The stored trust is what the one committed confirmation said. */
    ghost predicate Established()
      reads this
    {
      && current.Some? && |committed| == 1
      && var s, c := current.value, committed[0];
         && Presents(s, c) && c.code.valid && c.serverPin.valid && c.endpoint != 0
         && s.agent == s.expectedAgent && s.server == c.serverPin && s.endpoint == c.endpoint
    }

    constructor ZeroValue()
      ensures Valid() && current == None && committed == []
    {
      current, committed, offered := None, [], None;
    }

    /** `NewPairingSession`. */
    constructor (offer: Offer)
      ensures Valid() && committed == []
      ensures current.Some? <==> offer.code.valid && offer.agentPin.valid && offer.expiresAt != 0
      ensures current.Some? ==> current.value.status == Pending && offered == Some(offer)
    {
      committed, offered := [], Some(offer);
      current :=
        if !offer.code.valid || !offer.agentPin.valid || offer.expiresAt == 0 then None
        else Some(State(Hash(offer.code.bytes), offer.expiresAt, offer.agentPin, Pending,
                        ZERO_PIN, ZERO_PIN, 0));
    }

    method Expire(now: int) returns (consumed: bool)
      requires Valid()
      modifies this`current
      ensures Valid()
      ensures consumed <==> old(current).Some? && old(current).value.status == Pending
                            && now >= old(current).value.expiresAt
      ensures current == if consumed then Some(old(current).value.(status := Expired)) else old(current)
    {
      if current.None? || current.value.status != Pending || now < current.value.expiresAt {
        return false;
      }
      current := Some(current.value.(status := Expired));
      return true;
    }

    /** `pair`. `commit` is the outcome of the caller's commit step, if it has one; `tried` tells
        whether that step was run. */
    method Pair(now: int, c: Confirmation, commit: Option<bool>) returns (r: Outcome, tried: bool)
      requires Valid()
      modifies this`current, this`committed
      ensures Valid()
      // A pending session is paired by exactly the acceptable confirmations that commit.
      ensures tried <==> old(current).Some? && Acceptable(old(current).value, now, c) && commit.Some?
      ensures var accepted := old(current).Some? && Acceptable(old(current).value, now, c) && commit != Some(false);
              && (accepted ==>
                    && r == Ok && committed == old(committed) + [c]
                    && current == Some(old(current).value.(status := Paired, agent := old(current).value.expectedAgent,
                                                           server := c.serverPin, endpoint := c.endpoint)))
              && (!accepted ==> committed == old(committed))
              && (r == Ok <==> accepted || (old(current).Some? && Repeats(old(current).value, c) && commit.Some?))
      // A failed commit leaves the session as it was; only the clock expires it.
      ensures r == CommitFailed <==> tried && commit == Some(false)
      ensures r == CodeUsed <==> old(current).Some? && old(current).value.status.Paired? && r != Ok
      ensures committed == old(committed) ==>
                current == old(current)
                || (&& r == CodeExpired && old(current).Some? && old(current).value.status == Pending
                    && now >= old(current).value.expiresAt
                    && current == Some(old(current).value.(status := Expired)))
    {
      tried := false;
      if current.None? {
        return InvalidOffer, tried;
      }
      var s := current.value;
      if s.status == Paired && commit.Some? && Presents(s, c) && s.server == c.serverPin && s.endpoint == c.endpoint {
        return Ok, tried;
      }
      match s.status {
        case Paired => return CodeUsed, tried;
        case Expired => return CodeExpired, tried;
        case Pending =>
      }
      if now >= s.expiresAt {
        current := Some(s.(status := Expired));
        return CodeExpired, tried;
      }
      if !c.code.valid || s.codeHash != Hash(c.code.bytes) {
        return CodeMismatch, tried;
      }
      if !s.expectedAgent.Matches(c.observedAgent) {
        return AgentMismatch, tried;
      }
      if !c.serverPin.valid || c.endpoint == 0 {
        return InvalidConfirmation, tried;
      }
      if commit.Some? {
        tried := true;
        if !commit.value {
          return CommitFailed, tried;
        }
      }
      current := Some(s.(status := Paired, agent := s.expectedAgent, server := c.serverPin, endpoint := c.endpoint));
      committed := committed + [c];
      return Ok, tried;
    }

    /** `Prepare`: would this confirmation be accepted? */
    method Prepare(now: int, c: Confirmation) returns (r: Outcome)
      requires Valid()
      ensures r == Ok <==> current.Some? && Acceptable(current.value, now, c)
    {
      if current.None? {
        return InvalidOffer;
      }
      var s := current.value;
      if s.status != Pending {
        return CodeUsed;
      }
      if now >= s.expiresAt {
        return CodeExpired;
      }
      if !c.code.valid || s.codeHash != Hash(c.code.bytes) {
        return CodeMismatch;
      }
      if !s.expectedAgent.Matches(c.observedAgent) {
        return AgentMismatch;
      }
      if !c.serverPin.valid || c.endpoint == 0 {
        return InvalidConfirmation;
      }
      return Ok;
    }
  }

  datatype Call = ExpireCall(now: int) | PairCall(now: int, c: Confirmation, commit: Option<bool>)

  /** Any sequence of calls, with any clock and any commit failures: paired and expired sessions
      never change again, and at most one commit succeeds. */
  method Replay(session: PairingSession, calls: seq<Call>) returns (committed: nat)
    requires session.Valid()
    modifies session
    ensures session.Valid() && session.offered == old(session.offered)
    ensures old(session.current).Some? && old(session.current).value.status != Pending ==>
              session.current == old(session.current) && session.committed == old(session.committed)
    ensures old(session.current).None? ==> session.current.None?
    ensures committed == |session.committed| - |old(session.committed)|
    ensures old(session.current).Some? ==> |session.committed| <= 1
  {
    committed := 0;
    for i := 0 to |calls|
      invariant session.Valid() && session.offered == old(session.offered)
      invariant old(session.current).None? <==> session.current.None?
      invariant old(session.current).Some? && old(session.current).value.status != Pending ==>
                  session.current == old(session.current) && session.committed == old(session.committed)
      invariant committed == |session.committed| - |old(session.committed)|
    {
      match calls[i] {
        case ExpireCall(now) =>
          var consumed := session.Expire(now);
        case PairCall(now, c, commit) =>
          var pending := session.current.Some? && session.current.value.status == Pending;
          var r, tried := session.Pair(now, c, commit);
          if pending && r == Ok {
            committed := committed + 1;
          }
      }
    }
  }

  /** What the state file says about the trust. */
  datatype Trust = Trust(endpoint: int, server: Pin, agent: string)

  /** A save stops before its rename, after it but before the directory is synced, or succeeds. */
  datatype Saved = NotWritten | Unsynced(durable: bool) | Synced

  datatype Request = Request(post: bool, confirmation: Confirmation, agent: string, presented: Option<Pin>)
  {
    predicate WellFormed() {
      post && agent != "" && presented == Some(confirmation.serverPin)
    }

    function Asks(): Trust {
      Trust(confirmation.endpoint, confirmation.serverPin, agent)
    }
  }

  /** The listener that serves pairing requests and stores the trust as the session's commit. */
  class Listener {
    const session: PairingSession
    /** The state file as the next process reads it, and as it is after a power failure. */
    var visible: Option<Trust>
    var durable: Option<Trust>
    /** The requests whose commit was run. */
    ghost var attempts: seq<Request>

    ghost predicate Valid()
      reads this, session
    {
      && session.Valid()
      && session.current.Some?
      && (forall r | r in attempts :: r.WellFormed() && Presents(session.current.value, r.confirmation))
      && (session.current.value.status.Paired? ==>
            && attempts != [] && attempts[|attempts| - 1].confirmation == session.committed[0]
            && visible == Some(attempts[|attempts| - 1].Asks()) && durable == visible)
    }

    /** This copy of the file is as it was before, or what one of the requests asked for. */
    ghost predicate Asked(copy: Option<Trust>, before: Option<Trust>)
      reads this
    {
      copy == before || exists r | r in attempts :: copy == Some(r.Asks())
    }

    constructor (session: PairingSession, visible: Option<Trust>, durable: Option<Trust>)
      requires session.Valid() && session.current.Some? && session.current.value.status.Pending?
      ensures this.session == session && this.visible == visible && this.durable == durable
      ensures Valid() && attempts == []
    {
      this.session, this.visible, this.durable, attempts := session, visible, durable, [];
    }

    method ServerInit(now: int, r: Request, save: Saved) returns (status: int)
      requires Valid()
      modifies session, this`visible, this`durable, this`attempts
      ensures Valid() && session.offered == old(session.offered)
      // Success is answered exactly for accepted and stored, or repeated, confirmations.
      ensures status == 204 <==>
                r.WellFormed() && var s := old(session.current.value);
                  (Acceptable(s, now, r.confirmation) && save.Synced?) || Repeats(s, r.confirmation)
      ensures status == 204 ==>
                && session.current.value.status.Paired? && visible.Some? && durable == visible
                && visible.value.endpoint == r.confirmation.endpoint && visible.value.server == r.confirmation.serverPin
      ensures status == 405 <==> !r.post
      ensures status == 410 <==> r.WellFormed() && old(session.current.value.status).Paired? && status != 204
      ensures status in {204, 401, 405, 410}
      ensures attempts == (if r.WellFormed() && Acceptable(old(session.current.value), now, r.confirmation)
                           then old(attempts) + [r] else old(attempts))
      ensures old(session.current.value.status).Paired? ==>
                attempts == old(attempts) && session.current == old(session.current)
      // A request that is not answered with success leaves the file alone exactly unless the rename was made.
      ensures attempts == old(attempts) || save.NotWritten? ==> visible == old(visible) && durable == old(durable)
      ensures attempts != old(attempts) && !save.Synced? ==> session.current == old(session.current)
      ensures attempts != old(attempts) && !save.NotWritten? ==>
                && visible == Some(r.Asks())
                && durable == if save == Unsynced(false) then old(durable) else visible
    {
      if !r.post {
        return 405;
      }
      if r.agent == "" || r.presented != Some(r.confirmation.serverPin) {
        return 401;
      }
      var outcome, tried := session.Pair(now, r.confirmation, Some(save.Synced?));
      if tried {
        attempts := attempts + [r];
        if !save.NotWritten? {
          visible := Some(r.Asks());
          durable := if save == Unsynced(false) then durable else visible;
        }
      }
      match outcome
      case Ok => return 204;
      case CodeUsed => return 410;
      case _ => return 401;
    }
  }

  datatype Served = Served(now: int, request: Request, save: Saved)

  /** Any requests, clocks and failing saves: what is stored was asked for with the offered code and
      agent, and once the session is paired both copies of the file hold its trust for good. */
  method Serve(listener: Listener, requests: seq<Served>)
    requires listener.Valid()
    modifies listener.session, listener`visible, listener`durable, listener`attempts
    ensures listener.Valid()
    ensures old(listener.attempts) == [] ==>
              && listener.Asked(listener.visible, old(listener.visible))
              && listener.Asked(listener.durable, old(listener.durable))
    ensures old(listener.session.current.value.status).Paired? ==>
              listener.visible == old(listener.visible) && listener.durable == old(listener.durable)
  {
    for i := 0 to |requests|
      invariant listener.Valid()
      invariant old(listener.attempts) == [] ==>
                  && listener.Asked(listener.visible, old(listener.visible))
                  && listener.Asked(listener.durable, old(listener.durable))
      invariant old(listener.session.current.value.status).Paired? ==>
                  && listener.visible == old(listener.visible) && listener.durable == old(listener.durable)
                  && listener.session.current == old(listener.session.current)
    {
      ghost var attempts := listener.attempts;
      var status := listener.ServerInit(requests[i].now, requests[i].request, requests[i].save);
      assert listener.attempts == attempts || requests[i].request in listener.attempts;
      assert forall r | r in attempts :: r in listener.attempts;
    }
  }

  /** A refused request may still leave its trust behind: the agent answers 401 and is still pending,
      and the next process finds itself paired. */
  method RefusedRequestMayStillPair(offer: Offer, c: Confirmation, agent: string) returns (listener: Listener, status: int)
    requires offer.code.valid && offer.agentPin.valid && offer.expiresAt > 0 && agent != ""
    requires c.code == offer.code && c.observedAgent == offer.agentPin && c.serverPin.valid && c.endpoint != 0
    ensures listener.Valid() && status == 401 && listener.session.current.value.status.Pending?
    ensures listener.visible == Some(Trust(c.endpoint, c.serverPin, agent)) && listener.durable == None
  {
    var session := new PairingSession(offer);
    listener := new Listener(session, None, None);
    status := listener.ServerInit(0, Request(true, c, agent, Some(c.serverPin)), Unsynced(false));
  }
}
