/** Recovery of a claim from its marker: purge, report, acknowledge, retire. */
module ClaimRecovery {
  import opened Options
  import opened Errors
  import opened Dispatching
  import opened HostTree
  import opened ClaimReports
  import opened ClaimWorld
  import opened ContainerExecution
  import opened JobExecution

  /** The marker stands for containers that may still have to be cleaned up. */
  predicate Guarded(m: Option<Marker>) {
    m.Some? && m.value.cleanup.Some?
  }

  /** The marker still remembers to purge `r`, by name or with the whole staging directory. */
  predicate Remembers(m: Option<Marker>, r: Root, base: Path) {
    && m.Some? && m.value.hostCleanup
    && (r in m.value.hostRoots || r.path == base || Below(base, r.path))
  }

  /** Every recorded root is purged, or the marker remembers it. */
  ghost predicate Covered(w: World, m: Option<Marker>)
    reads w`obligations, w`tree
  {
    forall r | r in w.obligations :: Purged(w.tree, r.path) || Remembers(m, r, w.base)
  }

  /** The marker remembers every recorded root, whatever becomes of the directories. */
  ghost predicate Strong(w: World, m: Option<Marker>)
    reads w`obligations
  {
    forall r | r in w.obligations :: Remembers(m, r, w.base)
  }

  predicate Idle(w: World)
    reads w.forest
  {
    w.forest.jobs.processes == map[]
  }

  /** What holds whenever no claim is being worked on: whatever may be left behind, both copies of
      the marker remember it. While job processes survive they remember every root. */
  ghost predicate Suspended(w: World)
    reads w, w.runtime, w.forest
  {
    && w.Inv() && w.forest.Valid() && w.runtime.Valid()
    && (w.runtime.state.Empty() || (Guarded(w.visible) && Guarded(w.durable)))
    && Covered(w, w.visible) && Covered(w, w.durable)
    && (!Idle(w) ==> Strong(w, w.visible) && Strong(w, w.durable))
  }

  /** The reports recovery may send for a marker: the one it carries, or the cancellation that one
      lost against. */
  function Deliverable(m: Option<Marker>): set<(int, Report)> {
    if m.None? then {}
    else (if m.value.terminal.Some? then Outcomes(m.value.deployment, m.value.terminal.value.report) else {})
         + (if m.value.cleanup.Some? then {(m.value.deployment, m.value.cleanup.value.report)} else {})
  }

  function Outcomes(id: int, report: Report): set<(int, Report)> {
    {(id, report)} + if report.Result? then {(id, Report.Cancelled(report.protocol, report.token))} else {}
  }

  predicate RecoveryEvent(e: Event, reports: set<(int, Report)>) {
    match e
    case Wrote(before, after) => Left(Some(after)) < Left(before)
    case Secured(_) => true
    case Removed(before, _) => true
    case Sent(id, report, _, _, _, _) => (id, report) in reports
    case Acknowledged(_, _) => true
    case _ => false
  }

  /** Recovery only sends what it may, acknowledges, removes, and writes markers with less left to
      do. It never polls, starts or executes. */
  predicate Recovered(before: seq<Event>, after: seq<Event>, reports: set<(int, Report)>) {
    before <= after && forall i | |before| <= i < |after| :: RecoveryEvent(after[i], reports)
  }

  /** What the server is told as an outcome is what a power failure would leave on disk. */
  predicate Durably(e: Event) {
    e.Sent? && e.report.Ordinary() ==> Carries(e.durable, e.id, e.report)
  }

  /** Every outcome sent is durable, except that the outcome found on disk is sent as it is, whether
      the write that put it there was synced or not. */
  predicate SentAsFound(before: seq<Event>, after: seq<Event>, visible: Option<Marker>, durable: Option<Marker>) {
    before <= after && forall i | |before| <= i < |after| :: Durably(after[i]) || FoundSo(after[i], visible, durable)
  }

  predicate FoundSo(e: Event, visible: Option<Marker>, durable: Option<Marker>) {
    e.Sent? && e.visible == visible && e.durable == durable && Carries(visible, e.id, e.report)
  }

  predicate AllDurably(before: seq<Event>, after: seq<Event>) {
    before <= after && forall i | |before| <= i < |after| :: Durably(after[i])
  }

  /** An outcome that is durable when recovery starts is durable whenever it is sent. */
  lemma DurableWhenFound(before: seq<Event>, after: seq<Event>, visible: Option<Marker>, durable: Option<Marker>)
    requires SentAsFound(before, after, visible, durable)
    requires durable == visible
    ensures AllDurably(before, after)
  {
  }

  lemma RecoveredSendsNothing(before: seq<Event>, after: seq<Event>)
    requires Recovered(before, after, {})
    ensures AllDurably(before, after)
  {
  }

  lemma NothingYet(t: seq<Event>, visible: Option<Marker>, durable: Option<Marker>)
    ensures Recovered(t, t, Deliverable(visible)) && SentAsFound(t, t, visible, durable)
  {
  }

  /** Recovery that goes on from a synced marker. */
  lemma RecoveredFurther(first: seq<Event>, second: seq<Event>, third: seq<Event>,
                         found: (Option<Marker>, Option<Marker>), later: Option<Marker>)
    requires first <= second && Recovered(second, third, Deliverable(later))
    requires Deliverable(later) <= Deliverable(found.0) && Recovered(first, second, Deliverable(found.0))
    requires SentAsFound(first, second, found.0, found.1) && SentAsFound(second, third, later, later)
    ensures Recovered(first, third, Deliverable(found.0)) && SentAsFound(first, third, found.0, found.1)
  {
    DurableWhenFound(second, third, later, later);
  }

  lemma AdvancedFurther(first: seq<Event>, second: seq<Event>, third: seq<Event>, found: (Option<Marker>, Option<Marker>))
    requires Recovered(second, third, {})
    requires Recovered(first, second, Deliverable(found.0)) && SentAsFound(first, second, found.0, found.1)
    ensures Recovered(first, third, Deliverable(found.0)) && SentAsFound(first, third, found.0, found.1)
  {
    RecoveredSendsNothing(second, third);
  }

  lemma SameReports(before: Marker, after: Marker)
    requires after.terminal == before.terminal && after.cleanup == before.cleanup && after.deployment == before.deployment
    ensures Deliverable(Some(after)) == Deliverable(Some(before))
  {
  }

  /** The list a copy of the marker would purge. */
  function Roots(m: Option<Marker>): seq<Root> {
    if m.None? then [] else m.value.hostRoots
  }

  /** Recovery could be carried out from either copy of the marker. */
  ghost predicate Replayable(w: World)
    reads w`tree, w`visible, w`durable
  {
    Recoverable(w.tree, Roots(w.visible)) && Recoverable(w.tree, Roots(w.durable))
  }

  /** The directory that recovery empties first. */
  function FirstPurged(m: Marker, base: Path): Path {
    if m.hostRoots == [] then base else m.hostRoots[0].path
  }

  /** Emptying it takes nothing away from what the durable copy lists. */
  ghost predicate Undisturbed(w: World)
    reads w`visible, w`durable
  {
    w.visible.Some? && w.visible.value.hostCleanup ==>
      Spares(Roots(w.durable), FirstPurged(w.visible.value, w.base))
  }

  /** With a synced marker there is nothing to take away. */
  lemma SyncedIsUndisturbed(w: World)
    requires w.durable == w.visible && Recoverable(w.tree, Roots(w.visible))
    ensures Undisturbed(w)
  {
    if Roots(w.visible) != [] {
      FirstRootIsSpared(Roots(w.visible));
    }
  }

  lemma NoRootsAreRecoverable(t: Tree)
    ensures Recoverable(t, [])
  {
  }

  /** The most that may be left to do, from whichever copy recovery goes on. */
  function MostLeft(w: World): nat
    reads w`visible, w`durable
  {
    if Left(w.visible) < Left(w.durable) then Left(w.durable) else Left(w.visible)
  }

  class Client {
    const world: World
    const container: ContainerExecutor?
    const executor: Executor
    const pairing: Pairing
    const protocol: Protocol
    /** Which runtime and socket this session is configured for. */
    const runtimeId: int

    constructor (world: World, container: ContainerExecutor?, pairing: Pairing, runtimeId: int)
      requires container != null ==> container.runtime == world.runtime
      ensures this.world == world && this.container == container && this.pairing == pairing
      ensures Wired()
    {
      this.world, this.container, this.pairing, this.runtimeId := world, container, pairing, runtimeId;
      protocol := if container == null then V2 else V3;
      executor := new Executor(container, world.forest);
    }

    predicate Wired() {
      && executor.container == container && executor.forest == world.forest
      && (container != null ==> container.runtime == world.runtime)
      && protocol == if container == null then V2 else V3
    }

    function Containers(): set<object> {
      {world.runtime} + if container == null then {} else {container}
    }

    ghost function Repr(): set<object> {
      {world, world.runtime, world.forest} + if container == null then {} else {container}
    }

    ghost predicate Valid()
      reads Repr()
    {
      && Wired() && world.Inv() && world.forest.Valid() && world.runtime.Valid()
      && (container != null ==> container.Valid())
    }

    ghost predicate Rest()
      reads Repr()
    {
      Valid() && Suspended(world) && Idle(world)
    }

    /** Every replacement of the marker was paid for by work it no longer has to do, and every synced
        one by work that neither copy has to do. */
    twostate predicate Progressed()
      reads world
    {
      && world.writes + Left(world.visible) <= old(world.writes + Left(world.visible))
      && world.secured + MostLeft(world) <= old(world.secured + MostLeft(world))
    }

    /** Recovery can still be carried out from either copy, if it could be when it started and its first
        purge disturbs nothing. */
    twostate predicate StaysReplayable()
      reads world
    {
      old(Replayable(world)) && old(Undisturbed(world)) ==> Replayable(world)
    }

    method ClearClaim() returns (err: Error)
      requires Rest()
      requires world.visible.Some? ==>
                 MayRemove(world.trace, world.visible.value, world.runtime.state.Empty())
      requires world.visible.Some? ==> !world.visible.value.hostCleanup
      requires Guarded(world.visible) || Guarded(world.durable) ==> world.runtime.state.Empty()
      modifies world
      ensures Rest()
      ensures world.tree == old(world.tree)
      ensures Recovered(old(world.trace), world.trace, {})
      ensures Progressed() && (old(Replayable(world)) ==> Replayable(world))
      ensures world.visible == old(world.visible) || world.visible == None
      ensures err == NIL ==> world.visible == None && world.durable == None
      ensures HostProcessCleanup !in err
    {
      var ok := world.RemoveMarker();
      return if ok then NIL else {Other};
    }

    /** Purge the directory a record denotes, if it is still there under its recorded identity. */
    method PurgeRecoveredRoot(root: Root) returns (err: Error)
      requires Rest()
      modifies world`tree
      ensures Rest() && Purging(old(world.tree), world.tree, root.path)
      ensures err == NIL ==> Purged(world.tree, root.path)
      // The list of the durable copy survives a purge that spares it, and a completed one only then.
      ensures Recoverable(old(world.tree), Roots(world.durable)) ==>
                && (Spares(Roots(world.durable), root.path) ==> Recoverable(world.tree, Roots(world.durable)))
                && (err == NIL ==>
                      (PurgeAll(world.tree, Roots(world.durable)).Some? <==> Spares(Roots(world.durable), root.path)))
      ensures HostProcessCleanup !in err
    {
      var readable: bool := *;
      if !readable || !Found(world.tree, root) {
        return {Other};
      }
      var ok := world.PurgeDirectory(root.path);
      if Recoverable(old(world.tree), Roots(world.durable)) {
        PurgeSparesExactly(old(world.tree), world.tree, Roots(world.durable), root.path);
      }
      return if ok then NIL else {Other};
    }

    /** `ResetStaging`: empty the staging directory. */
    method ResetStaging() returns (err: Error)
      requires world.Inv()
      modifies world`tree
      ensures world.Inv() && Purging(old(world.tree), world.tree, world.base)
      ensures err == NIL ==> Purged(world.tree, world.base)
      ensures err == NIL || err == {Other}
    {
      var ok := world.PurgeDirectory(world.base);
      return if ok then NIL else {Other};
    }

    /** Replace the marker by one that has less left to do and forgets nothing. */
    method Advance(before: Marker, after: Marker) returns (err: Error)
      requires Rest() && world.visible == Some(before)
      requires Allowed(world.trace, Wrote(Some(before), after))
      requires after.Left() < before.Left()
      requires after.cleanup.Some? == before.cleanup.Some?
      requires forall r | r in after.hostRoots :: r in before.hostRoots
      requires Covered(world, Some(after))
      modifies world
      ensures Rest() && world.tree == old(world.tree)
      ensures Recovered(old(world.trace), world.trace, {})
      ensures Progressed()
      ensures world.visible == Some(before) || world.visible == Some(after)
      ensures world.durable in {old(world.durable), Some(before), Some(after)}
      ensures err == NIL ==> world.visible == Some(after) && world.durable == Some(after) && world.settled
      ensures HostProcessCleanup !in err
    {
      var ok := world.WriteMarker(after);
      return if ok then NIL else {Other};
    }

    /** Purge the first recorded root and record that it is done. */
    method PurgeNextRoot(marker: Marker) returns (err: Error, m: Marker)
      requires Rest() && world.visible == Some(marker)
      requires marker.terminal.Some? && marker.hostCleanup && marker.hostRoots != []
      modifies world
      ensures Rest() && Recovered(old(world.trace), world.trace, {})
      ensures Progressed()
      ensures m == marker.(hostRoots := marker.hostRoots[1..])
      ensures world.visible == Some(m) || (err != NIL && world.visible == Some(marker))
      ensures Recoverable(old(world.tree), marker.hostRoots) ==>
                Recoverable(world.tree, marker.hostRoots) && Recoverable(world.tree, m.hostRoots)
      ensures StaysReplayable() && (err == NIL ==> world.durable == world.visible)
      ensures HostProcessCleanup !in err
    {
      m := marker.(hostRoots := marker.hostRoots[1..]);
      err := PurgeRecoveredRoot(marker.hostRoots[0]);
      if Recoverable(old(world.tree), marker.hostRoots) {
        InterruptedPurgeStaysRecoverable(old(world.tree), world.tree, marker.hostRoots);
      }
      if err != NIL {
        err := err + {ContainerCleanup};
        return;
      }
      err := Advance(marker, m);
    }

    /** Purge the recorded roots in order, recording each one, then the whole staging directory. */
    method PurgeRecordedRoots(marker: Marker) returns (err: Error, m: Marker)
      requires Rest() && world.visible == Some(marker) && marker.terminal.Some? && marker.hostCleanup
      modifies world
      ensures Rest()
      ensures Recovered(old(world.trace), world.trace, {})
      ensures Progressed() && world.visible.Some?
      ensures Recoverable(old(world.tree), marker.hostRoots) ==>
                Recoverable(world.tree, world.visible.value.hostRoots)
      ensures StaysReplayable()
      ensures err == NIL ==>
                && world.visible == Some(m) && world.durable == Some(m)
                && m == marker.(hostCleanup := false, hostRoots := [])
      ensures HostProcessCleanup !in err
    {
      m := marker;
      while m.hostRoots != []
        invariant Rest() && world.visible == Some(m)
        invariant Recovered(old(world.trace), world.trace, {})
        invariant Progressed()
        invariant m == marker.(hostRoots := m.hostRoots)
        invariant Recoverable(old(world.tree), marker.hostRoots) ==> Recoverable(world.tree, m.hostRoots)
        invariant StaysReplayable() && (old(Replayable(world) && Undisturbed(world)) ==> Undisturbed(world))
        decreases |m.hostRoots|
      {
        hide Rest, Recoverable, Undisturbed;
        err, m := PurgeNextRoot(m);
        if err != NIL {
          return;
        }
        if Replayable(world) {
          SyncedIsUndisturbed(world);
        }
      }
      err, m := PurgeStagingArea(m);
    }

    /** With every recorded root purged, purge whatever is left and record that nothing is. */
    method PurgeStagingArea(marker: Marker) returns (err: Error, m: Marker)
      requires Rest() && world.visible == Some(marker)
      requires marker.terminal.Some? && marker.hostCleanup && marker.hostRoots == []
      modifies world
      ensures Rest() && Recovered(old(world.trace), world.trace, {})
      ensures Progressed() && world.visible.Some? && world.visible.value.hostRoots == []
      ensures StaysReplayable()
      ensures err == NIL ==>
                && world.visible == Some(m) && world.durable == Some(m)
                && m == marker.(hostCleanup := false)
      ensures HostProcessCleanup !in err
    {
      hide Safe, ClaimWorld.Kept, UniqueDirs, Spares, ChildFirst, AllFound;
      m := marker.(hostCleanup := false);
      err := ResetStaging();
      if old(Replayable(world)) {
        PurgeSparesExactly(old(world.tree), world.tree, Roots(world.durable), world.base);
      }
      NoRootsAreRecoverable(world.tree);
      if err != NIL {
        err := err + {ContainerCleanup};
        return;
      }
      err := Advance(marker, m);
    }

    /** Send a report of the marker. */
    method Deliver(marker: Marker, report: Report) returns (reply: Reply)
      requires Rest() && world.visible == Some(marker)
      requires (marker.deployment, report) in Deliverable(Some(marker))
      requires report.Ordinary() ==> world.Calm() && Carries(Some(marker), marker.deployment, report)
      modifies world
      ensures Rest() && world.tree == old(world.tree)
      ensures world.visible == Some(marker) && world.durable in {old(world.durable), Some(marker)}
      ensures Recovered(old(world.trace), world.trace, Deliverable(Some(marker)))
      ensures SentAsFound(old(world.trace), world.trace, Some(marker), old(world.durable))
      ensures Progressed() && world.settled == old(world.settled)
      ensures reply == NoContent ==> Acknowledged(marker.deployment, report) in world.trace
    {
      hide Safe, ClaimWorld.Kept, UniqueDirs, Deliverable;
      reply := world.Report(marker.deployment, report);
    }

    /** Deliver the outcome. A conflict that a live check confirms as a cancellation is first made
        durable as such, then delivered. */
    method ReportCompletedClaim(marker: Marker) returns (err: Error, m: Marker)
      requires Rest() && world.visible == Some(marker)
      requires marker.terminal.Some? && !marker.hostCleanup && !marker.terminalAcknowledged
      modifies world
      ensures Rest() && world.tree == old(world.tree)
      ensures Recovered(old(world.trace), world.trace, Deliverable(Some(marker)))
      ensures Progressed() && world.visible.Some?
      ensures world.visible.value.hostRoots == []
      ensures old(Replayable(world)) ==> Replayable(world)
      // What is sent is durable, unless it is the outcome the marker already carried.
      ensures SentAsFound(old(world.trace), world.trace, Some(marker), old(world.durable))
      ensures err == NIL ==>
                && world.visible == Some(m) && m.token == marker.token && m.deployment == marker.deployment
                && m.terminal.Some? && !m.hostCleanup && !m.terminalAcknowledged
                && Acknowledged(m.deployment, m.terminal.value.report) in world.trace
      decreases if marker.terminal.value.report.Result? then 1 else 0
      ensures HostProcessCleanup !in err
    {
      hide Safe, ClaimWorld.Kept, UniqueDirs, Recoverable, Recovered, SentAsFound;
      m := marker;
      NoRootsAreRecoverable(world.tree);
      NothingYet(world.trace, Some(marker), world.durable);
      var request := DecodeTerminalReport(pairing, m.deployment, m.terminal.value);
      if request.None? {
        return {Other}, m;
      }
      var reply := Deliver(m, request.value);
      ghost var sent := world.trace;
      if reply == NoContent {
        return NIL, m;
      }
      if !request.value.Result? || reply != Conflicted {
        return (if reply == Conflicted then {Conflict} else {Other}), m;
      }
      var cancelRequested, sealable: bool := *, *;
      if !cancelRequested || !sealable {
        return {Conflict}, m;
      }
      var cancelled := Report.Cancelled(request.value.protocol, request.value.token);
      m := m.(terminal := Some(Seal(pairing, m.deployment, cancelled)));
      err := Advance(marker, m);
      AdvancedFurther(old(world.trace), sent, world.trace, (Some(marker), old(world.durable)));
      if err != NIL {
        return;
      }
      ghost var advanced, rewritten := world.trace, m;
      err, m := ReportCompletedClaim(m);
      RecoveredFurther(old(world.trace), advanced, world.trace, (Some(marker), old(world.durable)), Some(rewritten));
    }

    method FinishTerminal(marker: Marker) returns (err: Error)
      requires Rest() && world.visible == Some(marker) && marker.terminal.Some?
      modifies world
      ensures Rest()
      ensures Recovered(old(world.trace), world.trace, Deliverable(Some(marker)))
      ensures Progressed()
      ensures Recoverable(old(world.tree), marker.hostRoots) && world.visible.Some? ==>
                Recoverable(world.tree, world.visible.value.hostRoots)
      ensures StaysReplayable()
      ensures SentAsFound(old(world.trace), world.trace, Some(marker), old(world.durable))
      ensures err == NIL ==>
                && world.visible == None && world.durable == None
                && Answered(world.trace, marker.deployment, marker.token)
      ensures HostProcessCleanup !in err
    {
      hide Rest, Recoverable, Recovered, SentAsFound, Deliverable, Answered, Undisturbed;
      ghost var found := (Some(marker), world.durable);
      NothingYet(world.trace, found.0, found.1);
      if !marker.hostCleanup {
        err := SettleTerminal(marker);
        return;
      }
      var m;
      err, m := PurgeRecordedRoots(marker);
      AdvancedFurther(old(world.trace), old(world.trace), world.trace, found);
      if err != NIL {
        return;
      }
      ghost var purged := world.trace;
      SameReports(marker, m);
      NoRootsAreRecoverable(world.tree);
      err := SettleTerminal(m);
      RecoveredFurther(old(world.trace), purged, world.trace, found, Some(m));
    }

    /** With nothing left to purge, deliver the outcome unless that is done, and retire the claim. */
    method SettleTerminal(marker: Marker) returns (err: Error)
      requires Rest() && world.visible == Some(marker) && marker.terminal.Some? && !marker.hostCleanup
      modifies world
      ensures Rest() && world.tree == old(world.tree)
      ensures Recovered(old(world.trace), world.trace, Deliverable(Some(marker)))
      ensures Progressed()
      ensures Recoverable(world.tree, Roots(world.visible)) && (old(Replayable(world)) ==> Replayable(world))
      ensures SentAsFound(old(world.trace), world.trace, Some(marker), old(world.durable))
      ensures err == NIL ==>
                && world.visible == None && world.durable == None
                && Answered(world.trace, marker.deployment, marker.token)
      ensures HostProcessCleanup !in err
    {
      hide Safe, ClaimWorld.Kept, UniqueDirs, Recoverable, Recovered, SentAsFound, Deliverable;
      ghost var found := (Some(marker), world.durable);
      NothingYet(world.trace, found.0, found.1);
      NoRootsAreRecoverable(world.tree);
      var m := marker;
      if !m.terminalAcknowledged {
        err, m := ReportCompletedClaim(m);
        if err != NIL {
          return;
        }
        ghost var reported := world.trace;
        var before := m;
        m := m.(terminalAcknowledged := true);
        err := Advance(before, m);
        AdvancedFurther(old(world.trace), reported, world.trace, found);
        if err != NIL {
          return;
        }
      } else if DecodeTerminalReport(pairing, m.deployment, m.terminal.value).None? {
        return {Other};
      }
      ghost var acknowledged := world.trace;
      err := ClearClaim();
      AdvancedFurther(old(world.trace), acknowledged, world.trace, found);
    }

    method FinishCleanup(marker: Marker) returns (err: Error)
      requires Rest() && world.visible == Some(marker)
      requires marker.terminal.None? && marker.cleanup.Some?
      modifies Repr()
      ensures Rest() && world.tree == old(world.tree)
      ensures Recovered(old(world.trace), world.trace, Deliverable(Some(marker)))
      ensures Progressed()
      ensures world.visible.Some? ==> world.visible.value.hostRoots == []
      ensures old(Replayable(world)) ==> Replayable(world)
      ensures AllDurably(old(world.trace), world.trace)
      ensures err == NIL ==>
                && world.visible == None && world.durable == None && world.runtime.state.Empty()
                && Answered(world.trace, marker.deployment, marker.token)
      ensures HostProcessCleanup !in err
    {
      hide Safe, ClaimWorld.Kept, UniqueDirs, Recoverable, Accounted, HandedOver;
      var result := DecodeCleanupReport(pairing, marker.deployment, marker.cleanup.value);
      if result.None? {
        return {Other};
      }
      if container == null || marker.runtime != runtimeId {
        return {ContainerCleanup};
      }
      err := container.Ready();
      if err != NIL {
        return;
      }
      var m := marker;
      if !m.cleanupAcknowledged {
        var reply := Deliver(m, result.value);
        if reply != NoContent {
          return if reply == Conflicted then {Conflict} else {Other};
        }
        m := m.(cleanupAcknowledged := true);
        err := Advance(marker, m);
        if err != NIL {
          return;
        }
      }
      err := ClearClaim();
    }

    /** Bring a claim left behind by an earlier run to its end. Polling resumes only after that. */
    method ResumeCleanupResult() returns (err: Error)
      requires Rest()
      modifies Repr()
      ensures Rest()
      ensures Recovered(old(world.trace), world.trace, Deliverable(old(world.visible)))
      ensures Progressed()
      ensures world.visible.Some? ==> old(world.visible).Some?
      ensures world.visible.Some? && Recoverable(old(world.tree), old(world.visible).value.hostRoots) ==>
                Recoverable(world.tree, world.visible.value.hostRoots)
      ensures StaysReplayable()
      ensures SentAsFound(old(world.trace), world.trace, old(world.visible), old(world.durable))
      ensures err == NIL ==>
                && !HasReport(world.visible)
                && (HasReport(old(world.visible)) ==>
                      && world.visible == None && world.durable == None
                      && Answered(world.trace, old(world.visible).value.deployment, old(world.visible).value.token))
      ensures HostProcessCleanup !in err
    {
      hide Safe, ClaimWorld.Kept, UniqueDirs, Recoverable;
      var readable, marker := world.ReadMarker();
      if world.durable == world.visible && Recoverable(world.tree, Roots(world.visible)) {
        SyncedIsUndisturbed(world);
      }
      if !readable {
        return {Other};
      }
      if marker.None? {
        return NIL;
      }
      if marker.value.terminal.Some? {
        err := FinishTerminal(marker.value);
      } else if marker.value.cleanup.Some? {
        err := FinishCleanup(marker.value);
      } else {
        return NIL;
      }
    }
  }
}
