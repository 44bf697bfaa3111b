/** Writing the marker of the claim being worked on. */
module ClaimStorage {
  import opened Options
  import opened Errors
  import opened Dispatching
  import opened HostTree
  import opened ClaimReports
  import opened ClaimWorld
  import opened ClaimRecovery
  import opened ContainerRuntime
  import opened ContainerExecution
  import opened JobExecution

  datatype Claim = Claim(id: int, token: int)

  predicate HasContainerStep(steps: seq<Step>) {
    exists i | 0 <= i < |steps| :: steps[i].container
  }

  /** The marker belongs to this claim and, once it carries an outcome, to this session. */
  predicate Owns(m: Option<Marker>, claim: Claim, protocol: Protocol) {
    && m.Some? && m.value.deployment == claim.id && m.value.token == claim.token
    && (m.value.terminal.Some? ==> m.value.terminal.value.report.protocol == protocol)
  }

  /** While a claim is being worked on, both copies of the marker are its own, and they remember
      every container and every host root it may leave behind. */
  ghost predicate Working(client: Client, claim: Claim)
    reads client.Repr()
  {
    && client.Valid() && claim.id >= 1 && claim.token != 0
    && Owns(client.world.visible, claim, client.protocol)
    && Owns(client.world.durable, claim, client.protocol)
    && (client.world.runtime.state.Empty() || (Guarded(client.world.visible) && Guarded(client.world.durable)))
    && Strong(client.world, client.world.visible) && Strong(client.world, client.world.durable)
  }

  /** Nothing but writes of the marker was added to the record. */
  predicate Quiet(before: seq<Event>, after: seq<Event>) {
    before <= after && forall i | |before| <= i < |after| :: after[i].Wrote? || after[i].Secured?
  }

  lemma QuietExecutesNothing(before: seq<Event>, after: seq<Event>, id: int)
    requires Quiet(before, after) && Executed(id) !in before
    ensures Executed(id) !in after
  {
  }

  predicate Unsent(before: seq<Event>, after: seq<Event>) {
    before <= after && forall i | |before| <= i < |after| :: !after[i].Sent?
  }

  /** What the reports of a claim say about how it ended: `worked` is the error its workload ended
      with, if one was run, and `stopped` whether it was told to stop. Any ordinary outcome may
      still lose against a cancellation the server confirms. */
  predicate Faithful(e: Event, claim: Claim, worked: Option<Error>, stopped: bool) {
    e.Sent? ==>
      && e.id == claim.id && e.report.token == claim.token
      && match e.report
         case Result(_, _, ResultSucceeded) => worked == Some(NIL) && !stopped
         case Result(_, _, ResultFailed) =>
           worked.None? || (worked.value != NIL && ContainerCleanup !in worked.value && !stopped)
         case Result(_, _, ResultCleanupUnconfirmed) =>
           worked.None? || ContainerCleanup in worked.value
         case Cancelled(_, _) => worked.Some? && ContainerCleanup !in worked.value
  }

  predicate AllFaithful(before: seq<Event>, after: seq<Event>, claim: Claim, worked: Option<Error>, stopped: bool) {
    before <= after && forall i | |before| <= i < |after| :: Faithful(after[i], claim, worked, stopped)
  }

  /** Replace the marker of the claim being worked on. */
  method Persist(client: Client, claim: Claim, m: Marker) returns (err: Error)
    requires Working(client, claim) && Owns(Some(m), claim, client.protocol)
    requires Justified(client.world.trace, m)
    requires HasReport(client.world.visible) ==> m.HasReport()
    requires client.world.visible.value.terminal.Some? ==> m.terminal.Some?
    requires client.world.runtime.state.Empty() || Guarded(Some(m))
    requires Strong(client.world, Some(m))
    modifies client.world
    ensures Working(client, claim)
    ensures client.world.tree == old(client.world.tree)
    ensures client.world.visible == old(client.world.visible) || client.world.visible == Some(m)
    ensures Quiet(old(client.world.trace), client.world.trace)
    ensures err == NIL ==>
              && client.world.visible == Some(m) && client.world.durable == Some(m)
              && client.world.obligations == old(client.world.obligations) + set r | r in m.hostRoots
    ensures err != NIL ==> client.world.obligations == old(client.world.obligations) && err == {Other}
  {
    var ok := client.world.WriteMarker(m);
    return if ok then NIL else {Other};
  }

  datatype Phase = CleanupPending | CleanupAcknowledged

  /** Record that containers may exist: from now on a crash is reported as an unconfirmed cleanup. */
  method PersistCleanup(client: Client, claim: Claim, phase: Phase) returns (err: Error)
    requires Working(client, claim) && client.world.visible.value.terminal.None?
    requires client.world.obligations == {}
    requires phase == CleanupAcknowledged ==>
               Acknowledged(claim.id, Result(client.protocol, claim.token, ResultCleanupUnconfirmed))
               in client.world.trace
    modifies client.world
    ensures Working(client, claim)
    ensures client.world.visible.value.terminal.None?
    ensures client.world.obligations == {}
    ensures Quiet(old(client.world.trace), client.world.trace)
    ensures err == NIL ==> Guarded(client.world.visible) && Guarded(client.world.durable) && client.container != null
    ensures err <= {Other}
  {
    var sealable: bool := *;
    if !sealable {
      return {Other};
    }
    if client.container == null {
      // Without an executor the process dies here.
      client.world.alive := false;
      return {Other};
    }
    var report := Result(V3, claim.token, ResultCleanupUnconfirmed);
    var m := CleanupMarker(claim.id, claim.token, Seal(client.pairing, claim.id, report),
                           client.runtimeId, phase == CleanupAcknowledged);
    err := Persist(client, claim, m);
  }

  /** The marker reports an interrupted execution of the claim once these roots are purged. */
  predicate IsHostCleanup(m: Option<Marker>, claim: Claim, protocol: Protocol, roots: seq<Root>) {
    && m.Some? && m.value.hostCleanup && m.value.hostRoots == roots
    && Carries(m, claim.id, Result(protocol, claim.token, ResultFailed))
  }

  /** Record the host roots together with the failure that an interruption will be reported as. */
  method PersistHostStagingCleanup(client: Client, claim: Claim, roots: seq<Root>) returns (err: Error)
    requires Working(client, claim) && client.world.runtime.state.Empty()
    requires forall r | r in client.world.obligations ::
               r in roots || r.path == client.world.base || Below(client.world.base, r.path)
    modifies client.world
    ensures Working(client, claim)
    ensures client.world.tree == old(client.world.tree)
    ensures Quiet(old(client.world.trace), client.world.trace)
    ensures err == NIL ==>
              && client.world.obligations == old(client.world.obligations) + (set r | r in roots)
              && IsHostCleanup(client.world.visible, claim, client.protocol, roots)
              && client.world.durable == client.world.visible
    ensures err != NIL ==> client.world.obligations == old(client.world.obligations) && err == {Other}
  {
    var sealable: bool := *;
    if !sealable {
      return {Other};
    }
    var report := Result(client.protocol, claim.token, ResultFailed);
    var m := HostCleanupMarker(claim.id, claim.token, Seal(client.pairing, claim.id, report), roots);
    err := Persist(client, claim, m);
  }

  function Outcome(claim: Claim, protocol: Protocol, worked: Error, stopped: bool): Report {
    if stopped then Report.Cancelled(protocol, claim.token)
    else Result(protocol, claim.token, if worked == NIL then ResultSucceeded else ResultFailed)
  }

  /** Seal the actual outcome, deliver it, and retire the claim. */
  method Settle(client: Client, claim: Claim, worked: Error, stopped: bool) returns (persisted: bool, err: Error)
    requires Working(client, claim) && client.world.Calm() && ContainerCleanup !in worked
    modifies client.Repr()
    ensures client.Rest()
    ensures AllFaithful(old(client.world.trace), client.world.trace, claim, Some(worked), stopped)
    ensures AllDurably(old(client.world.trace), client.world.trace)
    ensures HostProcessCleanup !in err
  {
    hide Safe, ClaimWorld.Kept, UniqueDirs, Recoverable;
    var sealable: bool := *;
    if !sealable {
      return false, {Other};
    }
    var outcome := Outcome(claim, client.protocol, worked, stopped);
    var m := TerminalMarker(claim.id, claim.token, Seal(client.pairing, claim.id, outcome));
    var ok := client.world.WriteMarker(m);
    if !ok {
      return false, {Other};
    }
    persisted := true;
    ghost var sealed := client.world.trace;
    err := client.ResumeCleanupResult();
    DurableWhenFound(sealed, client.world.trace, Some(m), Some(m));
  }

  /** Unless the claim has started, its marker is removed with the claim. */
  method Abandon(client: Client, claim: Claim)
    requires Working(client, claim) && client.world.Calm() && !HasReport(client.world.visible)
    requires Idle(client.world)
    modifies client.world
    ensures client.Rest() && Unsent(old(client.world.trace), client.world.trace)
  {
    var err := client.ClearClaim();
  }

  /** A container claim may run only once its recovery marker is durable. Otherwise no workload
      begins, and the claim is reported at once. */
  method PrepareContainerClaim(client: Client, claim: Claim, steps: seq<Step>) returns (err: Error)
    requires Working(client, claim) && client.world.Calm() && client.world.obligations == {}
    requires client.world.visible.value.terminal.None? && client.world.durable.value.terminal.None?
    requires Executed(claim.id) !in client.world.trace
    modifies client.world
    ensures client.Rest()
    ensures AllFaithful(old(client.world.trace), client.world.trace, claim, None, false)
    ensures err == NIL ==> Quiet(old(client.world.trace), client.world.trace)
    ensures HostProcessCleanup !in err && ContainerCleanup !in err
    ensures err == NIL ==>
              && Working(client, claim) && client.world.obligations == {}
              && client.world.visible.value.terminal.None?
              && (HasContainerStep(steps) ==>
                    && client.container != null
                    && Guarded(client.world.visible) && Guarded(client.world.durable))
  {
    hide Safe, ClaimWorld.Kept, UniqueDirs;
    if !HasContainerStep(steps) {
      return NIL;
    }
    err := PersistCleanup(client, claim, CleanupPending);
    if err == NIL {
      return;
    }
    var cleared := client.world.RemoveMarker();
    var state := if cleared then ResultFailed else ResultCleanupUnconfirmed;
    var reply := client.world.Report(claim.id, Result(client.protocol, claim.token, state));
    if reply == Conflicted {
      err := err + {Conflict};
    }
  }
}
