/** The polling loop, and sessions over any number of crashes and restarts. */
module AgentLoop {
  import opened Options
  import opened Errors
  import opened HostTree
  import opened ClaimReports
  import opened ClaimWorld
  import opened ClaimRecovery
  import opened ClaimStorage
  import opened ClaimExecution
  import opened ContainerRuntime
  import opened ContainerExecution

  /** The agent asks for work again after this. */
  predicate Continues(err: Error) {
    err == NIL || (Conflict in err && ContainerCleanup !in err)
  }

  /** Recovery first, then one claim at a time. `rounds` is how long the loop is observed, and
      `outcomes` how the rounds that asked for work ended. */
  method RunPaired(client: Client, rounds: nat) returns (err: Error, ghost outcomes: seq<Error>)
    requires client.Rest()
    modifies client.Repr()
    ensures client.Valid() && Suspended(client.world)
    ensures HostProcessCleanup !in err ==> Idle(client.world)
    ensures old(client.world.trace) <= client.world.trace
    // The loop goes on exactly after a round without work, a finished claim, or a lost one.
    ensures |outcomes| <= rounds && (err == NIL ==> |outcomes| == rounds)
    ensures forall i | 0 <= i < |outcomes| - 1 :: Continues(outcomes[i])
    ensures outcomes != [] && !Continues(outcomes[|outcomes| - 1]) ==> err == outcomes[|outcomes| - 1]
  {
    hide World.Inv, Accounted, HandedOver, Runtime.Valid, Suspended;
    outcomes := [];
    var stagingReady := false;
    for round := 0 to rounds
      invariant client.Rest() && |outcomes| == round
      invariant forall i | 0 <= i < |outcomes| :: Continues(outcomes[i])
      invariant old(client.world.trace) <= client.world.trace
    {
      var cancelled: bool := *;
      if cancelled {
        return {Errors.Cancelled}, outcomes;
      }
      err := client.ResumeCleanupResult();
      if err != NIL {
        return;
      }
      if !stagingReady {
        err := PrepareStaging(client);
        if err != NIL {
          return;
        }
        stagingReady := true;
      }
      err := PollOnce(client);
      outcomes := outcomes + [err];
      if ContainerCleanup in err || (err != NIL && Conflict !in err) {
        return;
      }
    }
    err := NIL;
  }

  method PollOnce(client: Client) returns (err: Error)
    requires client.Rest() && !HasReport(client.world.visible)
    modifies client.Repr()
    ensures client.Valid() && Suspended(client.world)
    ensures HostProcessCleanup in err ==> ContainerCleanup in err
    ensures HostProcessCleanup !in err ==> client.Rest()
    ensures old(client.world.trace) <= client.world.trace
  {
    hide World.Inv, Accounted, HandedOver, Runtime.Valid;
    NothingLeft(client);
    var claim := client.world.Poll();
    var failed: bool := *;
    if failed {
      return {Other};
    }
    if claim.None? {
      return NIL;
    }
    ghost var worked, stopped;
    err, worked, stopped := ExecuteClaim(client, Claim(claim.value.0, claim.value.1));
  }

  method PrepareStaging(client: Client) returns (err: Error)
    requires client.Rest()
    modifies client.world`tree
    ensures client.Rest()
    ensures err == NIL || err == {Other}
  {
    err := client.ResetStaging();
  }

  /** A settled claim has left nothing behind. */
  lemma NothingLeft(client: Client)
    requires client.Rest() && !HasReport(client.world.visible)
    ensures client.world.Calm()
  {
    var m := client.world.visible;
    assert m.Some? ==> m.value.WellFormed();
  }

  /** Sessions of the agent with any pairing and configuration, each ended by an error, by the death
      of the process, or by a power failure. `plan` gives the observed length of each session. */
  method Run(world: World, plan: seq<nat>)
    requires Suspended(world) && Idle(world)
    modifies world, world.runtime, world.forest
    ensures Suspended(world) && Idle(world)
    ensures old(world.trace) <= world.trace && Safe(world.trace)
  {
    hide World.Inv, Accounted, HandedOver, Runtime.Valid;
    for session := 0 to |plan|
      invariant Suspended(world) && Idle(world) && old(world.trace) <= world.trace
    {
      var err := RunSession(world, plan[session]);
      var killed: bool := *;
      if killed || !world.alive || HostProcessCleanup in err {
        RestartAgent(world);
      }
    }
    RecordIsSafe(world);
  }

  method RunSession(world: World, rounds: nat) returns (err: Error)
    requires Suspended(world) && Idle(world)
    modifies world, world.runtime, world.forest
    ensures Suspended(world)
    ensures HostProcessCleanup !in err ==> Idle(world)
    ensures old(world.trace) <= world.trace
  {
    hide World.Inv, Accounted, HandedOver;
    var client;
    client, err := StartSession(world);
    if err == NIL {
      ghost var outcomes;
      err, outcomes := RunPaired(client, rounds);
    }
  }

  /** A session starts with some pairing and configuration. One with containers reclaims what the last
      left in the runtime. */
  method StartSession(world: World) returns (client: Client?, err: Error)
    requires Suspended(world) && Idle(world)
    modifies world.runtime
    ensures Suspended(world) && Idle(world) && unchanged(world)
    ensures HostProcessCleanup !in err
    ensures err == NIL ==>
              client != null && client.world == world && client.Rest()
              && (client.container == null || fresh(client.container))
  {
    hide World.Inv, Accounted, HandedOver;
    var pairing: Pairing := *;
    var containers: bool := *;
    var runtimeId: int := *;
    var container: ContainerExecutor? := null;
    client, err := null, NIL;
    if containers {
      container := new ContainerExecutor.Orphaned(world.runtime);
      err := container.Ready();
      if err != NIL {
        return;
      }
    }
    client := new Client(world, container, pairing, runtimeId);
  }

  /** Recovery asks for no work and starts none. Every outcome it sends is durable, if `durably` is set. */
  predicate Recovers(before: seq<Event>, after: seq<Event>, durably: bool) {
    && before <= after
    && forall i | |before| <= i < |after| ::
         !after[i].Polled? && !after[i].StartAccepted? && !after[i].Executed? && (durably ==> Durably(after[i]))
  }

  /** Recovery over any number of sessions, each ended by an error, by the death of the process, or by
      a power failure, until one brings it to its end. `undisturbed` tells whether the first purge of
      each session took nothing away from the durable copy, and `synced` whether each session started
      with equal copies of the marker, as a synced write leaves them. */
  method Recover(world: World, sessions: nat) returns (recovered: bool, ghost undisturbed: bool, ghost synced: bool)
    requires Suspended(world) && Idle(world)
    modifies world, world.runtime, world.forest
    ensures Suspended(world) && Idle(world)
    ensures Recovers(old(world.trace), world.trace, synced)
    ensures recovered ==> !HasReport(world.visible) && world.Calm()
    // However often it is interrupted, no more writes take effect than there was left to do.
    ensures world.secured + MostLeft(world) <= old(world.secured + MostLeft(world))
    // Neither copy is ever left with a root that recovery would find missing.
    ensures old(Replayable(world)) && undisturbed ==> Replayable(world)
    ensures old(Replayable(world)) && synced ==> undisturbed
  {
    hide World.Inv, Accounted, HandedOver, Runtime.Valid, Suspended, Recoverable, Undisturbed;
    recovered, undisturbed, synced := false, true, true;
    for session := 0 to sessions
      invariant Suspended(world) && Idle(world)
      invariant Recovers(old(world.trace), world.trace, synced)
      invariant world.secured + MostLeft(world) <= old(world.secured + MostLeft(world))
      invariant old(Replayable(world)) && undisturbed ==> Replayable(world)
      invariant old(Replayable(world)) && synced ==> undisturbed
    {
      undisturbed, synced := undisturbed && Undisturbed(world), synced && world.durable == world.visible;
      if world.durable == world.visible && Replayable(world) {
        SyncedIsUndisturbed(world);
      }
      recovered := RecoverOnce(world);
      if recovered {
        return;
      }
      RestartAgent(world);
    }
  }

  lemma ResumedRecovers(before: seq<Event>, after: seq<Event>, visible: Option<Marker>, durable: Option<Marker>)
    requires Recovered(before, after, Deliverable(visible)) && SentAsFound(before, after, visible, durable)
    ensures Recovers(before, after, durable == visible)
  {
    hide Deliverable;
    if durable == visible {
      DurableWhenFound(before, after, visible, durable);
    }
  }

  method RecoverOnce(world: World) returns (recovered: bool)
    requires Suspended(world) && Idle(world)
    modifies world, world.runtime, world.forest
    ensures Suspended(world) && Idle(world)
    ensures Recovers(old(world.trace), world.trace, old(world.durable == world.visible))
    ensures recovered ==> !HasReport(world.visible) && world.Calm()
    ensures world.secured + MostLeft(world) <= old(world.secured + MostLeft(world))
    ensures old(Replayable(world) && Undisturbed(world)) ==> Replayable(world)
  {
    hide World.Inv, Accounted, HandedOver, Recoverable, Undisturbed;
    var client, err := StartSession(world);
    if err != NIL {
      return false;
    }
    err := client.ResumeCleanupResult();
    ResumedRecovers(old(world.trace), world.trace, old(world.visible), old(world.durable));
    if err == NIL {
      NothingLeft(client);
    }
    return err == NIL;
  }

  method RestartAgent(world: World)
    requires Suspended(world)
    modifies world, world.forest
    ensures Suspended(world) && Idle(world) && world.trace == old(world.trace)
    ensures world.secured == old(world.secured)
    ensures world.visible in {old(world.visible), old(world.durable)}
    ensures world.durable in {old(world.durable), old(world.visible)}
    ensures old(Idle(world)) ==> world.tree == old(world.tree)
  {
    world.Restart();
  }

  lemma RecordIsSafe(world: World)
    requires world.Inv()
    ensures Safe(world.trace)
  {
  }
}
