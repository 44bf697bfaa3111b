/** From a polled claim to its terminal report. */
module ClaimExecution {
  import opened Options
  import opened Errors
  import opened Dispatching
  import opened HostTree
  import opened ClaimReports
  import opened ClaimWorld
  import opened ClaimRecovery
  import opened ClaimStorage
  import opened ClaimStaging
  import opened ContainerRuntime
  import opened ContainerExecution
  import opened JobExecution

  datatype Payload = Payload(steps: seq<Step>, staging: bool, artifact: bool, input: Archive, package: Archive)
  {
    predicate Valid() {
      (staging ==> |steps| == 1) && (artifact ==> staging)
    }
  }

  /** The record of a claim's workload: writes of the marker, and the one execution. */
  predicate Unreported(before: seq<Event>, after: seq<Event>) {
    && before <= after
    && forall i | |before| <= i < |after| :: after[i].Wrote? || after[i].Secured? || after[i].Executed?
  }

  /** Before a claim runs: nothing is left over, and what it may leave behind is remembered. */
  ghost predicate Admissible(client: Client, claim: Claim, steps: seq<Step>)
    reads client.Repr()
  {
    && Working(client, claim) && Unstaged(client) && Idle(client.world)
    && client.world.obligations == {} && client.world.visible.value.terminal.None?
    && (HasContainerStep(steps) ==>
          client.container != null && Guarded(client.world.visible) && Guarded(client.world.durable))
  }

  /** Stage the input and the package; a host claim announces its directories. */
  method ConfigureStage(stage: JobStaging, claim: Claim, payload: Payload) returns (err: Error, config: Config)
    requires Admissible(stage.client, claim, payload.steps) && payload.Valid() && payload.staging
    requires stage.Intact() && stage.root.Some? && stage.workspace.Some? && stage.package.None?
    requires stage.container.None? && stage.packageContainer.None?
    modifies stage, stage.client.world, stage.client.Containers()
    ensures stage.Ready(claim) && Bounded(stage.client.world, [])
    ensures Quiet(old(stage.client.world.trace), stage.client.world.trace)
    ensures HostProcessCleanup !in err
    ensures ContainerCleanup !in err && stage.client.container != null ==>
              stage.client.container.cleanupErr == NIL
    ensures err == NIL ==>
              && (stage.container.Some? <==> payload.steps[0].container)
              && config == Config(stage.container.None?, stage.Volumes())
    // A host claim does not run before its recovery is durable and can be carried out.
    ensures err == NIL && stage.container.None? ==>
              && IsHostCleanup(stage.client.world.visible, claim, stage.client.protocol, stage.recoveryRoots)
              && stage.client.world.durable == stage.client.world.visible
              && Recoverable(stage.client.world.tree, stage.recoveryRoots)
  {
    hide World.Inv, Strong, Accounted, HandedOver, Runtime.Valid, Owns, Found, Recoverable;
    var client := stage.client;
    var volumes;
    err, volumes := stage.Configure(claim, payload.steps[0], payload.input);
    if err == NIL && payload.artifact {
      err := stage.ConfigureArtifact(claim, payload.package);
      volumes := stage.Volumes();
    }
    config := Config(!payload.steps[0].container, volumes);
    if err == NIL && stage.container.None? {
      var supervised: bool := *;
      if !supervised {
        err := {Other};
        return;
      }
      err := stage.Announce(claim);
    }
  }

  /** Execute the steps of a started claim, once. */
  method RunSteps(client: Client, claim: Claim, steps: seq<Step>, config: Config) returns (err: Error)
    requires Working(client, claim) && Idle(client.world)
    requires StartAccepted(claim.id) in client.world.trace && Executed(claim.id) !in client.world.trace
    requires HasContainerStep(steps) ==> Guarded(client.world.visible) && Guarded(client.world.durable)
    modifies client.Repr()
    ensures Working(client, claim)
    ensures Unreported(old(client.world.trace), client.world.trace)
    ensures client.world.visible == old(client.world.visible)
    ensures client.world.durable == old(client.world.durable) || client.world.durable == client.world.visible
    ensures client.world.obligations == old(client.world.obligations)
    ensures HostProcessCleanup in err ==> ContainerCleanup in err
    ensures HostProcessCleanup !in err ==> Idle(client.world)
    ensures client.container != null ==>
              && client.container.stages == old(client.container.stages)
              && (ContainerCleanup !in err || !HasContainerStep(steps) ==>
                    client.container.cleanupErr == old(client.container.cleanupErr))
    ensures !HasContainerStep(steps) ==> client.world.runtime.state == old(client.world.runtime.state)
  {
    hide World.Inv, Strong, Accounted, HandedOver, Runtime.Valid;
    var begun := client.world.BeginExecution(claim.id);
    if !begun {
      return {Errors.Cancelled};
    }
    ghost var succeeded;
    err, succeeded := client.executor.ExecuteSteps(steps, config);
    client.world.JobTouchesTree();
  }

  /** Stage, execute, publish and clean up. `stage` is what the claim staged, if it did. */
  method RunWorkload(client: Client, claim: Claim, payload: Payload) returns (err: Error, stage: JobStaging?)
    requires Admissible(client, claim, payload.steps) && payload.Valid()
    requires StartAccepted(claim.id) in client.world.trace && Executed(claim.id) !in client.world.trace
    modifies client.Repr()
    ensures Working(client, claim)
    ensures Unreported(old(client.world.trace), client.world.trace)
    ensures HostProcessCleanup in err ==> ContainerCleanup in err
    ensures HostProcessCleanup !in err ==> Idle(client.world)
    ensures ContainerCleanup !in err ==> client.world.Calm()
    ensures stage != null ==> fresh(stage) && stage.client == client
    ensures stage != null && stage.container.None? ==>
              client.world.runtime.state.Empty() && Bounded(client.world, stage.recoveryRoots)
    ensures stage == null || stage.container.Some? ==>
              client.world.obligations == {} && client.world.visible.value.terminal.None?
  {
    hide World.Inv, Strong, Accounted, HandedOver, Runtime.Valid, Owns, Found, Recoverable, State.Empty;
    stage := null;
    var environment: bool := *;
    if !environment {
      return {Other}, null;
    }
    if payload.staging {
      stage, err := JobStaging.NewJobStaging(client, claim);
      if stage == null {
        return;
      }
      if err == NIL {
        err := RunStaged(stage, claim, payload);
      }
      err := ReleaseStage(stage, claim, err);
    } else {
      err := RunSteps(client, claim, payload.steps, Config(false, Job(None, None)));
      if client.container != null && ContainerCleanup !in err {
        LedgerIsEmpty(client.container);
      }
    }
  }

  /** Close the stage, unless job processes may still be using it: then only record where it is. */
  method ReleaseStage(stage: JobStaging, claim: Claim, job: Error) returns (err: Error)
    requires stage.Ready(claim) && Bounded(stage.client.world, [])
    requires HostProcessCleanup in job ==> ContainerCleanup in job
    requires HostProcessCleanup !in job ==> Idle(stage.client.world)
    requires ContainerCleanup !in job && stage.client.container != null ==>
               stage.client.container.cleanupErr == NIL
    modifies stage`recoveryRoots, stage.client.world, stage.client.Containers()
    ensures stage.Ready(claim) && Bounded(stage.client.world, stage.recoveryRoots)
    ensures Quiet(old(stage.client.world.trace), stage.client.world.trace)
    ensures job <= err && (HostProcessCleanup in err ==> HostProcessCleanup in job)
    ensures ContainerCleanup !in err ==> stage.client.world.Calm()
  {
    hide World.Inv, Strong, Accounted, HandedOver, Runtime.Valid, Owns, Found;
    if HostProcessCleanup in job {
      var recordErr := stage.RecordRoots(false);
      err := job + recordErr;
    } else {
      var closeErr := stage.Close(claim);
      err := job + closeErr;
    }
  }

  method RunStaged(stage: JobStaging, claim: Claim, payload: Payload) returns (err: Error)
    requires Admissible(stage.client, claim, payload.steps) && payload.Valid() && payload.staging
    requires StartAccepted(claim.id) in stage.client.world.trace && Executed(claim.id) !in stage.client.world.trace
    requires stage.Intact() && stage.root.Some? && stage.workspace.Some? && stage.package.None?
    requires stage.container.None? && stage.packageContainer.None?
    modifies stage, stage.client.Repr()
    ensures stage.Ready(claim) && Bounded(stage.client.world, [])
    ensures Unreported(old(stage.client.world.trace), stage.client.world.trace)
    ensures HostProcessCleanup in err ==> ContainerCleanup in err
    ensures HostProcessCleanup !in err ==> Idle(stage.client.world)
    ensures ContainerCleanup !in err && stage.client.container != null ==>
              stage.client.container.cleanupErr == NIL
  {
    hide World.Inv, Strong, Accounted, HandedOver, Runtime.Valid, Owns, Found, Recoverable, State.Empty;
    var config;
    err, config := ConfigureStage(stage, claim, payload);
    if err == NIL {
      QuietExecutesNothing(old(stage.client.world.trace), stage.client.world.trace, claim.id);
      err := RunSteps(stage.client, claim, payload.steps, config);
    }
    if err == NIL {
      var published: bool := *;
      err := if published then NIL else {Other};
    }
  }

  /** Persist, decode, check readiness, announce the start, and prepare the recovery of a container
      claim. A claim that is not admitted leaves the client at rest: what could not be removed is remembered. */
  method Admit(client: Client, claim: Claim) returns (admitted: bool, err: Error, payload: Payload)
    requires client.Rest() && client.world.Calm() && client.world.obligations == {}
    requires !HasReport(client.world.visible) && claim.id >= 1 && claim.token != 0
    modifies client.Repr()
    ensures client.Rest()
    ensures AllFaithful(old(client.world.trace), client.world.trace, claim, None, false)
    ensures HostProcessCleanup !in err
    ensures admitted ==>
              && Unsent(old(client.world.trace), client.world.trace) && payload.Valid() && Admissible(client, claim, payload.steps)
              && StartAccepted(claim.id) in client.world.trace && Executed(claim.id) !in client.world.trace
  {
    hide World.Inv, Strong, Accounted, HandedOver, Runtime.Valid, Justified;
    admitted, payload := false, *;
    err := PersistLegacy(client, claim);
    if err != NIL {
      return;
    }
    var decoded: bool := *;
    if !decoded || !payload.Valid() || (HasContainerStep(payload.steps) && client.container == null) {
      Abandon(client, claim);
      err := {Other};
      return;
    }
    if client.container != null {
      err := client.container.Ready();
      if err != NIL {
        Abandon(client, claim);
        return;
      }
    }
    var reply := client.world.Start(claim.id, claim.token);
    if reply != NoContent {
      Abandon(client, claim);
      err := if reply == Conflicted then {Conflict} else {Other};
      return;
    }
    ghost var started := client.world.trace;
    err := PrepareContainerClaim(client, claim, payload.steps);
    if err == NIL {
      QuietExecutesNothing(started, client.world.trace, claim.id);
      admitted := true;
    }
  }

  method PersistLegacy(client: Client, claim: Claim) returns (err: Error)
    requires client.Rest() && client.world.Calm() && client.world.obligations == {}
    requires !HasReport(client.world.visible) && claim.id >= 1 && claim.token != 0
    modifies client.world
    ensures client.Rest() && client.world.Calm() && client.world.obligations == {}
    ensures Quiet(old(client.world.trace), client.world.trace)
    ensures err == NIL ==>
              && Working(client, claim) && !HasReport(client.world.visible)
              && client.world.durable == client.world.visible
    ensures err == NIL || err == {Other}
  {
    var ok := client.world.WriteMarker(LegacyMarker(claim.id, claim.token));
    err := if ok then NIL else {Other};
  }

  /** Cleanup could not be confirmed: leave the claim to recovery. */
  method LeaveToRecovery(client: Client, claim: Claim, stage: JobStaging?, worked: Error) returns (err: Error)
    requires Working(client, claim) && ContainerCleanup in worked
    requires stage != null && stage.container.None? ==>
               client.world.runtime.state.Empty() && Bounded(client.world, stage.recoveryRoots)
    requires stage == null || stage.container.Some? ==>
               client.world.obligations == {} && client.world.visible.value.terminal.None?
    modifies client.world
    ensures Working(client, claim)
    ensures AllFaithful(old(client.world.trace), client.world.trace, claim, Some(worked), false)
    ensures AllDurably(old(client.world.trace), client.world.trace)
    ensures worked <= err && err <= worked + {Conflict, Other}
  {
    if stage != null && stage.container.None? {
      var persistErr := PersistHostStagingCleanup(client, claim, stage.recoveryRoots);
      return worked + persistErr;
    }
    var report := Result(client.protocol, claim.token, ResultCleanupUnconfirmed);
    var reply := client.world.Report(claim.id, report);
    if reply != NoContent {
      return worked + {if reply == Conflicted then Conflict else Other};
    }
    var persistErr := PersistCleanup(client, claim, CleanupAcknowledged);
    err := worked + persistErr;
  }

  lemma WorkingIsSuspended(client: Client, claim: Claim)
    requires Working(client, claim)
    ensures Suspended(client.world)
  {
  }

  /** Execute a claim and deliver its outcome. Ordinary outcomes are delivered only when nothing of
      the claim is left; otherwise both copies of its marker remember what is. */
  method ExecuteClaim(client: Client, claim: Claim)
    returns (err: Error, ghost worked: Option<Error>, ghost stopped: bool)
    requires client.Rest() && client.world.Calm() && client.world.obligations == {}
    requires !HasReport(client.world.visible) && claim.id >= 1 && claim.token != 0
    modifies client.Repr()
    ensures client.Valid() && Suspended(client.world)
    ensures HostProcessCleanup in err ==> ContainerCleanup in err
    ensures HostProcessCleanup !in err ==> client.Rest()
    ensures AllFaithful(old(client.world.trace), client.world.trace, claim, worked, stopped)
    // Once a workload was run, its outcome is durable before it is sent.
    ensures worked.Some? ==> AllDurably(old(client.world.trace), client.world.trace)
  {
    hide World.Inv, Strong, Accounted, HandedOver, Runtime.Valid;
    worked, stopped := None, false;
    var admitted, payload;
    admitted, err, payload := Admit(client, claim);
    if !admitted {
      return;
    }
    var stage;
    err, stage := RunWorkload(client, claim, payload);
    var flushed, interrupted: bool := *, *;
    if !flushed && err == NIL {
      err := {LogDelivery, Other};
    }
    ghost var before := client.world.trace;
    var job := err;
    worked := Some(job);
    if ContainerCleanup in job {
      err := LeaveToRecovery(client, claim, stage, job);
      WorkingIsSuspended(client, claim);
      return;
    }
    var cancelled := interrupted || Errors.Cancelled in job;
    stopped := cancelled;
    var persisted;
    persisted, err := Settle(client, claim, job, cancelled);
    if !persisted && !cancelled {
      err := err + job;
    }
  }
}
