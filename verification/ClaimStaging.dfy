/** The host directories and container stages of one staged claim. */
module ClaimStaging {
  import opened Options
  import opened Errors
  import opened HostTree
  import opened ClaimReports
  import opened ClaimWorld
  import opened ClaimRecovery
  import opened ClaimStorage
  import opened ContainerRuntime
  import opened ContainerExecution
  import opened JobExecution
  import opened HostSupervision

  /** Every recorded root is one of `roots`, or part of the staging directory. */
  ghost predicate Bounded(w: World, roots: seq<Root>)
    reads w`obligations
  {
    forall r | r in w.obligations :: r in roots || r.path == w.base || Below(w.base, r.path)
  }

  /** No command of this session has left anything behind, and no stage is open. */
  ghost predicate Unstaged(client: Client)
    reads client.Repr()
  {
    && (client.container != null ==> client.container.cleanupErr == NIL && client.container.stages == map[])
    && client.world.runtime.state.Empty()
  }

  /** The only open stages are those of `volumes`, unless cleanup is uncertain. */
  ghost predicate StagesWithin(client: Client, volumes: Job)
    reads client.Repr()
  {
    && client.container != null
    && forall v | v in client.container.stages ::
         volumes.stageVolume == Some(v) || volumes.artifactVolume == Some(v)
  }

  lemma LedgerIsEmpty(c: ContainerExecutor)
    requires c.Valid() && c.cleanupErr == NIL && c.stages == map[]
    ensures c.runtime.state.Empty()
  {
    var s := c.runtime.state;
    assert forall id :: id !in s.containers;
    assert forall v :: v !in s.volumes;
  }

  function VolumeOf(stage: Option<ContainerStage>): Option<nat> {
    if stage.Some? then Some(stage.value.volume) else None
  }

  class JobStaging {
    const client: Client
    var root: Option<int>
    var workspace: Option<int>
    var package: Option<int>
    var directory: Path
    var packageDirectory: Path
    var container: Option<ContainerStage>
    var packageContainer: Option<ContainerStage>
    var recoveryRoots: seq<Root>

    constructor (client: Client)
      ensures this.client == client && root == None && workspace == None && package == None
      ensures container == None && packageContainer == None
    {
      this.client := client;
      root, workspace, package, directory, packageDirectory := None, None, None, [], [];
      container, packageContainer, recoveryRoots := None, None, [];
    }

    predicate Opened()
      reads this
    {
      root != Some(0) && workspace != Some(0) && package != Some(0)
    }

    /** The directories are still where they were created. */
    predicate Intact()
      reads this, client.world
    {
      var tree, base := client.world.tree, client.world.base;
      && Opened()
      && (root.Some? ==> Found(tree, Root(base, root.value)))
      && (workspace.Some? ==>
            && Found(tree, Root(directory, workspace.value))
            && |directory| == |base| + 2 && Below(base, directory) && directory[..|base| + 1] in tree)
      && (package.Some? ==>
            && Found(tree, Root(packageDirectory, package.value))
            && |packageDirectory| == |base| + 1 && Below(base, packageDirectory)
            && (workspace.Some? ==> !Below(packageDirectory, directory)))
    }

    ghost predicate Ready(claim: Claim)
      reads this, client.Repr()
    {
      && Working(client, claim) && Opened()
      && (container.None? ==> packageContainer.None? && Unstaged(client))
      && (container.Some? ==>
            && client.world.visible.value.terminal.None? && client.world.obligations == {}
            && Guarded(client.world.visible) && Guarded(client.world.durable)
            && StagesWithin(client, Volumes()))
    }

    function Volumes(): Job
      reads this
    {
      Job(VolumeOf(container), VolumeOf(packageContainer))
    }

    /** Create the staging directories of a claim. */
    static method NewJobStaging(client: Client, claim: Claim) returns (stage: JobStaging?, err: Error)
      requires Working(client, claim) && Unstaged(client)
      modifies client.world`tree
      ensures Working(client, claim) && Unstaged(client)
      ensures err == NIL || err == {Other}
      ensures stage != null ==>
                && fresh(stage) && stage.client == client && stage.Intact()
                && stage.container == None && stage.packageContainer == None && stage.package == None
      ensures err == NIL ==> stage != null && stage.root.Some? && stage.workspace.Some?
    {
      hide World.Inv, Strong, Guarded, Owns, Safe, ContainerExecutor.Valid, Runtime.Valid, Forest.Valid;
      var downloaded: bool := *;
      if !downloaded {
        return null, {Other};
      }
      var made, inode, parent := client.world.MakeDirectory(client.world.base);
      if !made {
        return null, {Other};
      }
      stage := new JobStaging(client);
      err := stage.CreateWorkspace(parent);
    }

    method CreateWorkspace(parent: Path) returns (err: Error)
      requires client.world.Inv() && root == None && workspace == None && package == None
      requires |parent| == |client.world.base| + 1 && Below(client.world.base, parent)
      modifies this`root, this`workspace, this`directory, client.world`tree
      ensures client.world.Inv() && Intact()
      ensures err == NIL || err == {Other}
      ensures err == NIL ==> root.Some? && workspace.Some?
    {
      hide World.Inv;
      var world := client.world;
      root := world.OpenDirectory(world.base);
      if root.None? {
        return {Other};
      }
      var made, inode, path := world.MakeDirectory(parent);
      if !made {
        return {Other};
      }
      directory := path;
      BelowIsTransitive(world.base, parent, path);
      workspace := world.OpenDirectory(path);
      err := if workspace.None? then {Other} else NIL;
    }

    /** Put the input where the step finds it: in a volume, or in the workspace directory. */
    method Configure(claim: Claim, step: Step, archive: Archive) returns (err: Error, volumes: Job)
      requires Ready(claim) && Intact() && workspace.Some? && container.None?
      requires step.container ==>
                 && client.container != null && client.world.obligations == {}
                 && client.world.visible.value.terminal.None?
                 && Guarded(client.world.visible) && Guarded(client.world.durable)
      modifies this`container, client.world`tree, client.Containers()
      ensures Ready(claim) && Intact()
      ensures HostProcessCleanup !in err
      ensures ContainerCleanup !in err && client.container != null ==> client.container.cleanupErr == NIL
      ensures err == NIL ==> volumes == Volumes() && (container.Some? <==> step.container)
    {
      hide World.Inv, Accounted, HandedOver, Built, Grew, Strong, Owns;
      volumes := Job(None, None);
      if step.container {
        container, err := client.container.NewStage(archive, false);
        volumes := Volumes();
        return;
      }
      var unpacked := client.world.Populate(directory);
      err := if unpacked then NIL else {Other};
    }

    /** Extract the package into a directory of its own. */
    method ExtractArtifact(claim: Claim) returns (err: Error)
      requires Ready(claim) && Intact() && workspace.Some? && package.None?
      modifies this`package, this`packageDirectory, client.world`tree
      ensures Ready(claim) && Intact()
      ensures err == NIL || err == {Other}
      ensures err == NIL ==> package.Some?
    {
      hide World.Inv, Strong, Guarded, Owns, ContainerExecutor.Valid, Runtime.Valid, Forest.Valid, State.Empty;
      var world := client.world;
      var downloaded: bool := *;
      if !downloaded {
        return {Other};
      }
      var made, inode, path := world.MakeDirectory(world.base);
      if !made {
        return {Other};
      }
      var extracted := world.Populate(path);
      if !extracted {
        return {Other};
      }
      packageDirectory := path;
      package := world.OpenDirectory(path);
      err := if package.None? then {Other} else NIL;
    }

    /** Extract the package, and for a container step hand it over in a read-only volume. */
    method ConfigureArtifact(claim: Claim, archive: Archive) returns (err: Error)
      requires Ready(claim) && Intact() && workspace.Some? && packageContainer.None? && package.None?
      requires container.Some? ==>
                 client.container != null && client.container.cleanupErr == NIL
      modifies this`package, this`packageDirectory, this`packageContainer
      modifies client.world`tree, client.Containers()
      ensures Ready(claim) && Intact()
      ensures HostProcessCleanup !in err
      ensures ContainerCleanup !in err && client.container != null ==> client.container.cleanupErr == NIL
      // The package is in a directory of its own beside the workspace, and for a container step sealed
      // in a volume that nothing else uses.
      ensures err == NIL ==>
                && package.Some?
                && (container.Some? ==>
                      && packageContainer.Some? && packageContainer.value.readOnly
                      && packageContainer.value.volume !in old(client.container.stages)
                      && client.container.stages
                         == old(client.container.stages)[packageContainer.value.volume := ReadOnly]
                      && Built(client.world.runtime.state, packageContainer.value, archive))
    {
      hide World.Inv, Strong, Guarded, Owns, Accounted, Runtime.Valid, Forest.Valid;
      hide HandedOver, Built, Grew, ContainerExecutor.StayedSealed, State.Holds, Found;
      err := ExtractArtifact(claim);
      if err != NIL {
        return;
      }
      var prepared: bool := *;
      if !prepared {
        return {Other};
      }
      if container.Some? {
        packageContainer, err := client.container.NewStage(archive, true);
      }
    }

    ghost function HandleOf(h: Option<int>): Option<Handle>
      reads client.world
    {
      if h.None? then None else Some(Handle(h.value, LinkOf(client.world.tree, h.value)))
    }

    /** What `RecordRoots` records for the directories as they are linked now. */
    ghost function Records(beforeLaunch: bool): seq<Root>
      reads this, client.world
    {
      RecordedRoots(client.world.base, HandleOf(root), HandleOf(workspace), HandleOf(package), beforeLaunch)
    }

    /** Collect the recovery records of the open directories. A directory whose identity cannot be
        captured leaves a record that blocks the recovery. */
    method RecordRoots(beforeLaunch: bool) returns (err: Error)
      requires client.world.Inv()
      modifies this`recoveryRoots
      ensures err == NIL ==> recoveryRoots == Records(beforeLaunch)
      ensures err == NIL || err == {Other}
    {
      var base := client.world.base;
      hide RecordedRoots, Record, Covering, World.Inv;
      var handles := [root, workspace, package];
      var found: seq<Option<Handle>> := [None, None, None];
      recoveryRoots := [];
      NothingRecorded(base, beforeLaunch);
      for i := 0 to 3
        invariant |found| == 3
        invariant forall k | 0 <= k < 3 :: found[k] == if k < i then HandleOf(handles[k]) else None
        invariant unchanged(client.world)
        invariant recoveryRoots == RecordedRoots(base, found[0], found[1], found[2], beforeLaunch)
      {
        if handles[i].Some? {
          var captured, sealed: bool := *, *;
          if !captured {
            recoveryRoots := [Root([], 0)];
            return {Other};
          }
          if beforeLaunch && i == 2 && !sealed {
            return {Other};
          }
          var at := client.world.Locate(handles[i].value);
          var handle := Some(Handle(handles[i].value, at));
          OneMoreRecord(base, found, i, handle, beforeLaunch);
          var record := Record(handle, if beforeLaunch || i == 0 then None else Covering(base, found[0]));
          found := found[i := handle];
          recoveryRoots := if beforeLaunch && i > 0 then record + recoveryRoots else recoveryRoots + record;
        }
      }
      return NIL;
    }

    /** Record the directories and what an interruption is reported as, before anything runs. */
    method Announce(claim: Claim) returns (err: Error)
      requires Ready(claim) && Intact() && root.Some? && workspace.Some? && container.None?
      requires client.world.obligations == {}
      modifies this`recoveryRoots, client.world
      ensures Ready(claim) && Bounded(client.world, [])
      ensures client.world.tree == old(client.world.tree)
      ensures Quiet(old(client.world.trace), client.world.trace)
      ensures err == NIL || err == {Other}
      ensures err == NIL ==>
                && IsHostCleanup(client.world.visible, claim, client.protocol, recoveryRoots)
                && client.world.durable == client.world.visible
                && Recoverable(client.world.tree, recoveryRoots)
    {
      err := RecordRoots(true);
      if err == NIL {
        LaidOut();
        err := PersistHostStagingCleanup(client, claim, recoveryRoots);
      }
    }

    /** Purge every open directory wherever it is linked now. */
    method PurgeHandles() returns (err: Error)
      requires client.world.Inv() && Opened() && recoveryRoots == Records(false)
      modifies client.world`tree
      ensures client.world.Inv()
      ensures err == NIL ==> forall r | r in recoveryRoots :: Purged(client.world.tree, r.path)
      ensures err == NIL || err == {ContainerCleanup, Other}
    {
      hide Purged, World.Inv, Purging, RecordedRoots;
      var world := client.world;
      var handles := [workspace, package, root];
      RecordsFound();
      err := NIL;
      for i := 0 to 3
        invariant world.Inv() && recoveryRoots == old(Records(false))
        invariant err == NIL || err == {ContainerCleanup, Other}
        invariant err == NIL ==> forall r | r in recoveryRoots ::
                    Found(world.tree, r) || Purged(world.tree, r.path)
        invariant err == NIL ==> forall r, k | r in recoveryRoots && 0 <= k < i && handles[k] == Some(r.inode) ::
                    Purged(world.tree, r.path)
      {
        if handles[i].Some? {
          var purged := PurgeHandle(handles[i].value);
          if !purged {
            err := {ContainerCleanup, Other};
          }
        }
      }
      forall r | r in recoveryRoots && err == NIL
        ensures Purged(world.tree, r.path)
      {
        assert Some(r.inode) in {handles[0], handles[1], handles[2]};
      }
    }

    /** Purge one open directory. What was recorded for another is still there, or emptied too. */
    method PurgeHandle(inode: int) returns (ok: bool)
      requires client.world.Inv()
      modifies client.world`tree
      ensures client.world.Inv()
      ensures ok ==> forall r | Found(old(client.world.tree), r) || Purged(old(client.world.tree), r.path) ::
                && (Found(client.world.tree, r) || Purged(client.world.tree, r.path))
                && (r.inode == inode || Purged(old(client.world.tree), r.path) ==> Purged(client.world.tree, r.path))
    {
      var at := client.world.Locate(inode);
      if at.None? {
        return true;
      }
      ghost var before := client.world.tree;
      ok := client.world.PurgeDirectory(at.value);
      if ok {
        forall r | Found(before, r) || Purged(before, r.path)
          ensures Found(client.world.tree, r) || Purged(client.world.tree, r.path)
        {
          PurgeLeavesOrEmpties(before, client.world.tree, at.value, r);
        }
      }
    }

    lemma RecordsFound()
      requires client.world.Inv() && Opened()
      ensures forall r | r in Records(false) ::
                && Found(client.world.tree, r)
                && Some(r.inode) in {root, workspace, package}
    {
      forall r | r in Records(false)
        ensures Found(client.world.tree, r) && Some(r.inode) in {root, workspace, package}
      {
        RecordsDenoteHandles(client.world.base, HandleOf(root), HandleOf(workspace), HandleOf(package), false, r);
      }
    }

    method CloseStages(claim: Claim) returns (err: Error)
      requires Ready(claim)
      modifies client.Containers()
      ensures Ready(claim)
      ensures err == NIL || err == {ContainerCleanup}
      ensures err == NIL && (client.container != null ==> old(client.container.cleanupErr) == NIL) ==>
                Unstaged(client)
    {
      hide HandedOver, Accounted, ContainerExecutor.StayedSealed, World.Inv, Strong, Runtime.Valid, Released;
      err := NIL;
      if container.Some? {
        ghost var open := client.container.stages;
        client.container.AnyStageMayBeHandled(container.value);
        err := client.container.Close(container.value);
        assert client.container.stages == open - {container.value.volume};
      }
      if packageContainer.Some? {
        ghost var open := client.container.stages;
        client.container.AnyStageMayBeHandled(packageContainer.value);
        var closeErr := client.container.Close(packageContainer.value);
        assert client.container.stages == open - {packageContainer.value.volume};
        err := err + closeErr;
      }
      if container.Some? && err == NIL && client.container.cleanupErr == NIL {
        assert client.container.stages == map[] by {
          assert forall v :: v !in client.container.stages;
        }
        LedgerIsEmpty(client.container);
      }
    }

    /** Record where the directories are now. A host claim makes the records durable. */
    method RecordForPurge(claim: Claim) returns (err: Error)
      requires Ready(claim) && Bounded(client.world, [])
      modifies this`recoveryRoots, client.world
      ensures Ready(claim)
      ensures err == NIL || err == {Other}
      ensures Quiet(old(client.world.trace), client.world.trace)
      ensures Bounded(client.world, recoveryRoots)
      ensures err == NIL ==> recoveryRoots == Records(false)
    {
      hide HandedOver, Accounted, World.Inv, Strong, Runtime.Valid, Purged, Guarded, Owns, Found, RecordedRoots;
      err := RecordRoots(false);
      if err == NIL && container.None? {
        err := PersistHostStagingCleanup(client, claim, recoveryRoots);
      }
    }

    /** Release everything the claim staged. Without the cleanup error nothing of it is left. */
    method Close(claim: Claim) returns (err: Error)
      requires Ready(claim) && Bounded(client.world, [])
      modifies this`recoveryRoots, client.world, client.Containers()
      ensures Ready(claim)
      ensures HostProcessCleanup !in err
      ensures Quiet(old(client.world.trace), client.world.trace)
      ensures Bounded(client.world, recoveryRoots)
      ensures ContainerCleanup !in err && (client.container != null ==> old(client.container.cleanupErr) == NIL) ==>
                Unstaged(client) && client.world.Discharged()
    {
      hide HandedOver, Accounted, World.Inv, Strong, Runtime.Valid, Purged, Guarded, Owns, Found, RecordedRoots;
      err := CloseStages(claim);
      var recordErr := RecordForPurge(claim);
      if recordErr != NIL {
        return err + {ContainerCleanup} + recordErr;
      }
      var purgeErr := PurgeOwned();
      err := err + purgeErr;
      var closed: bool := *;
      if !closed {
        err := err + {Other};
      }
    }

    /** Purge the open directories, then whatever is left in the staging directory. */
    method PurgeOwned() returns (err: Error)
      requires client.world.Inv() && Opened() && recoveryRoots == Records(false)
      requires Bounded(client.world, recoveryRoots)
      modifies client.world`tree
      ensures client.world.Inv()
      ensures err == NIL ==> client.world.Discharged()
      ensures err == NIL || err == {ContainerCleanup, Other}
    {
      hide World.Inv, RecordedRoots;
      err := PurgeHandles();
      ghost var purged := client.world.tree;
      var resetErr := client.ResetStaging();
      if err == NIL && resetErr == NIL {
        Discharges(purged);
      }
      if resetErr != NIL {
        err := {ContainerCleanup, Other};
      }
    }

    lemma Discharges(purged: Tree)
      requires Bounded(client.world, recoveryRoots)
      requires forall r | r in recoveryRoots :: Purged(purged, r.path)
      requires Purging(purged, client.world.tree, client.world.base)
      requires Purged(client.world.tree, client.world.base)
      ensures client.world.Discharged()
    {
      forall r | r in client.world.obligations
        ensures Purged(client.world.tree, r.path)
      {
        if r !in recoveryRoots {
          PurgedBelow(client.world.tree, client.world.base, r.path);
        }
      }
    }

    lemma LaidOut()
      requires client.world.Inv() && Intact() && root.Some? && workspace.Some?
      ensures Recoverable(client.world.tree, Records(true))
      ensures forall r | r in Records(true) ::
                r.path == client.world.base || Below(client.world.base, r.path)
    {
      var tree, base := client.world.tree, client.world.base;
      assert HandleOf(root) == Some(Handle(root.value, Some(base)));
      assert HandleOf(workspace) == Some(Handle(workspace.value, Some(directory)));
      if package.Some? {
        assert HandleOf(package) == Some(Handle(package.value, Some(packageDirectory)));
      }
      PrelaunchRootsAreRecoverable(tree, HandleOf(root).value, HandleOf(workspace).value, HandleOf(package));
    }
  }
}
