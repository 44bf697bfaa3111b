/** The container executor: which runtime resources it owns, and when it may run an attempt. */
module ContainerExecution {
  import opened Options
  import opened Errors
  import opened ContainerRuntime

  datatype Access = Writable | ReadOnly

  /** The caller's copyable handle. Permissions live in the executor, not here. */
  datatype ContainerStage = ContainerStage(volume: nat, readOnly: bool)
  {
    predicate Covers(name: Name) {
      name == Keeper(volume) || (readOnly && name == Importer(volume))
    }

    /** The helper the archive is imported through. */
    function WritableHelper(): Name {
      if readOnly then Importer(volume) else Keeper(volume)
    }
  }

  datatype Job = Job(stageVolume: Option<nat>, artifactVolume: Option<nat>)
  {
    function Mounts(): set<Mount> {
      (if stageVolume.Some? then {Mount(stageVolume.value, true)} else {})
      + (if artifactVolume.Some? then {Mount(artifactVolume.value, false)} else {})
    }
  }

  /** The helper container that keeps `volume` alive, with the access it was registered for. */
  predicate Kept(s: State, volume: nat, access: Access) {
    exists id | id in s.containers ::
      s.containers[id] == Container(Keeper(volume), {Mount(volume, access == Writable)})
  }

  /** Every registered stage has its keeper and, when read-only, exactly what was imported. */
  ghost predicate HandedOver(s: State, stages: map<nat, Access>, imports: map<nat, Archive>) {
    forall v | v in stages ::
      && v in s.volumes
      && Kept(s, v, stages[v])
      && (stages[v] == ReadOnly ==> v in imports && s.Sealed(v, imports[v]))
  }

  /** Every container and volume belongs to a registered stage, or to the one being handled. */
  ghost predicate Accounted(s: State, stages: map<nat, Access>, handled: Option<ContainerStage>) {
    && (forall id | id in s.containers :: Claimed(s.containers[id].name, stages, handled))
    && (forall v | v in s.volumes :: v in stages || (handled.Some? && v == handled.value.volume))
  }

  predicate Claimed(name: Name, stages: map<nat, Access>, handled: Option<ContainerStage>) {
    || (name.Keeper? && name.volume in stages)
    || (handled.Some? && handled.value.Covers(name))
  }

  predicate Shrunk(before: State, after: State) {
    after.containers.Keys <= before.containers.Keys && after.volumes.Keys <= before.volumes.Keys
  }

  /** Exactly the containers `stage` covers are gone. */
  predicate Released(before: State, after: State, stage: ContainerStage) {
    && (forall id | id in after.containers ::
          && id in before.containers && after.containers[id] == before.containers[id]
          && !stage.Covers(after.containers[id].name))
    && (forall id | id in before.containers && !stage.Covers(before.containers[id].name) ::
          id in after.containers)
  }

  /** Removing helpers by name, confirmed by name, releases a stage. */
  lemma Releases(before: State, middle: State, after: State, stage: ContainerStage)
    requires middle == before || (stage.readOnly && middle == before.Without(ByName(Importer(stage.volume))))
    requires stage.readOnly ==> !middle.HasName(Importer(stage.volume))
    requires after == middle || after == middle.Without(ByName(Keeper(stage.volume)))
    requires !after.HasName(Keeper(stage.volume))
    ensures Released(before, after, stage)
  {
  }

  lemma RemovalKeeps(s: State, ref: Name, stages: map<nat, Access>, imports: map<nat, Archive>)
    requires HandedOver(s, stages, imports)
    requires ref.Keeper? ==> ref.volume !in stages
    ensures HandedOver(s.Without(ByName(ref)), stages, imports)
  {
    var after := s.Without(ByName(ref));
    forall v | v in stages
      ensures Kept(after, v, stages[v]) && after.Mounted(v) && after.volumes[v] == s.volumes[v]
    {
      var id :| id in s.containers
        && s.containers[id] == Container(Keeper(v), {Mount(v, stages[v] == Writable)});
      assert id in after.containers;
      assert after.containers[id].Uses(v);
      assert State(after.containers, s.volumes).Mounted(v);
    }
  }

  lemma ForgettingKeeps(s: State, stages: map<nat, Access>, imports: map<nat, Archive>, volume: nat)
    requires HandedOver(s, stages, imports)
    ensures HandedOver(s, stages - {volume}, imports)
  {
  }

  lemma AdditionKeeps(s: State, after: State, c: Container,
                      stages: map<nat, Access>, imports: map<nat, Archive>)
    requires HandedOver(s, stages, imports) && Added(s, after, c)
    requires forall v | v in stages && stages[v] == ReadOnly :: Mount(v, true) !in c.mounts
    ensures HandedOver(after, stages, imports)
  {
    forall v | v in stages
      ensures Kept(after, v, stages[v]) && after.Mounted(v)
    {
      var id :| id in s.containers
        && s.containers[id] == Container(Keeper(v), {Mount(v, stages[v] == Writable)});
      assert id in after.containers && after.containers[id].Uses(v);
    }
  }

  lemma WorkloadKeeps(s: State, after: State, c: Container,
                      stages: map<nat, Access>, imports: map<nat, Archive>)
    requires HandedOver(s, stages, imports)
    requires after.containers == s.containers || Added(s, after.(volumes := s.volumes), c)
    requires after.volumes.Keys == s.volumes.Keys
    requires forall v | v in s.volumes && Mount(v, true) !in c.mounts :: after.volumes[v] == s.volumes[v]
    requires forall v | v in stages && stages[v] == ReadOnly :: Mount(v, true) !in c.mounts
    ensures HandedOver(after, stages, imports)
  {
    forall v | v in stages
      ensures Kept(after, v, stages[v]) && after.Mounted(v)
    {
      var id :| id in s.containers
        && s.containers[id] == Container(Keeper(v), {Mount(v, stages[v] == Writable)});
      assert id in after.containers && after.containers[id].Uses(v);
    }
  }

  lemma ContentKeeps(s: State, after: State, volume: nat,
                     stages: map<nat, Access>, imports: map<nat, Archive>)
    requires HandedOver(s, stages, imports) && volume !in stages
    requires after.containers == s.containers && s.volumes.Keys <= after.volumes.Keys
    requires forall v | v in s.volumes && v != volume :: after.volumes[v] == s.volumes[v]
    ensures HandedOver(after, stages, imports)
  {
    forall v | v in stages
      ensures Kept(after, v, stages[v])
    {
    }
  }

  /** While `stage` is being built, only containers and volumes it covers are new. */
  predicate Grew(before: State, after: State, stage: ContainerStage) {
    && (forall id | id in before.containers ::
          id in after.containers && after.containers[id] == before.containers[id])
    && (forall id | id in after.containers && id !in before.containers ::
          stage.Covers(after.containers[id].name))
    && before.volumes.Keys <= after.volumes.Keys <= before.volumes.Keys + {stage.volume}
  }

  /** The stage is ready to be registered for `access`, holding `archive`. */
  predicate Built(s: State, stage: ContainerStage, archive: Archive) {
    && stage.volume in s.volumes && s.volumes[stage.volume] == archive
    && Kept(s, stage.volume, if stage.readOnly then ReadOnly else Writable)
    && !s.HasName(Importer(stage.volume))
    && s.Mounted(stage.volume)
    && (stage.readOnly ==> !s.MountedWritable(stage.volume))
  }

  lemma VolumeRemovalKeeps(s: State, after: State, volume: nat,
                           stages: map<nat, Access>, imports: map<nat, Archive>)
    requires HandedOver(s, stages, imports) && volume !in stages
    requires after == s || after == s.(volumes := s.volumes - {volume})
    ensures HandedOver(after, stages, imports)
  {
    forall v | v in stages
      ensures Kept(after, v, stages[v])
    {
    }
  }

  /** The fresh volume name is nowhere in the runtime yet. */
  predicate Unused(s: State, volume: nat) {
    && volume !in s.volumes
    && forall id | id in s.containers ::
         s.containers[id].name.Nonce() != volume && !s.containers[id].Uses(volume)
  }

  lemma Creates(s0: State, s: State, stage: ContainerStage,
                stages: map<nat, Access>, imports: map<nat, Archive>, intact: bool)
    requires Unused(s0, stage.volume) && stage.volume !in stages
    requires s == s0 || s == s0.(volumes := s0.volumes[stage.volume := []])
    requires intact ==> HandedOver(s0, stages, imports)
    ensures Grew(s0, s, stage)
    ensures intact ==> HandedOver(s, stages, imports)
  {
    if intact { ContentKeeps(s0, s, stage.volume, stages, imports); }
  }

  lemma Launches(s0: State, s: State, after: State, stage: ContainerStage, name: Name, mount: Mount,
                 stages: map<nat, Access>, imports: map<nat, Archive>, intact: bool)
    requires Grew(s0, s, stage) && stage.Covers(name) && stage.volume !in stages
    requires mount.volume == stage.volume
    requires after == s || Added(s, after, Container(name, {mount}))
    requires intact ==> HandedOver(s, stages, imports)
    ensures Grew(s0, after, stage)
    ensures after != s && mount.writable ==> after.MountedWritable(stage.volume)
    ensures intact ==> HandedOver(after, stages, imports)
  {
    if intact && after != s {
      AdditionKeeps(s, after, Container(name, {mount}), stages, imports);
    }
  }

  lemma Fills(s0: State, s: State, after: State, stage: ContainerStage,
              stages: map<nat, Access>, imports: map<nat, Archive>, intact: bool)
    requires Grew(s0, s, stage) && stage.volume !in stages
    requires after.containers == s.containers && after.volumes.Keys == s.volumes.Keys
    requires forall v | v in s.volumes && v != stage.volume :: after.volumes[v] == s.volumes[v]
    requires intact ==> HandedOver(s, stages, imports)
    ensures Grew(s0, after, stage)
    ensures intact ==> HandedOver(after, stages, imports)
  {
    if intact { ContentKeeps(s, after, stage.volume, stages, imports); }
  }

  lemma Retires(s0: State, s: State, after: State, stage: ContainerStage,
                stages: map<nat, Access>, imports: map<nat, Archive>, intact: bool)
    requires Unused(s0, stage.volume)
    requires Grew(s0, s, stage) && stage.volume !in stages
    requires after == s || after == s.Without(ByName(Importer(stage.volume)))
    requires intact ==> HandedOver(s, stages, imports)
    ensures Grew(s0, after, stage)
    ensures intact ==> HandedOver(after, stages, imports)
  {
    if intact { RemovalKeeps(s, Importer(stage.volume), stages, imports); }
  }

  /** The volume holds `archive`, written through the one container that mounts it. */
  predicate Imported(s0: State, s: State, stage: ContainerStage, archive: Archive) {
    && stage.volume in s.volumes && s.volumes[stage.volume] == archive
    && exists id | id in s.containers ::
         id !in s0.containers
         && s.containers == s0.containers[id := Container(stage.WritableHelper(), {Mount(stage.volume, true)})]
  }

  lemma ImportedVia(s0: State, s1: State, s2: State, s: State, stage: ContainerStage, archive: Archive)
    requires s1.containers == s0.containers
    requires Added(s1, s2, Container(stage.WritableHelper(), {Mount(stage.volume, true)}))
    requires s.containers == s2.containers
    requires stage.volume in s.volumes && s.volumes[stage.volume] == archive
    ensures Imported(s0, s, stage, archive)
  {
  }

  lemma HeldOnImport(s0: State, s: State, stage: ContainerStage, archive: Archive)
    requires Imported(s0, s, stage, archive)
    ensures s.Holds(stage.volume, archive)
  {
    var id :| id in s.containers && id !in s0.containers
      && s.containers == s0.containers[id := Container(stage.WritableHelper(), {Mount(stage.volume, true)})];
    assert s.containers[id].Uses(stage.volume);
  }

  lemma UnusedNonce(s: State, nonce: nat)
    requires forall id | id in s.containers :: s.containers[id].name.Nonce() < nonce
    requires forall id, m | id in s.containers && m in s.containers[id].mounts :: m.volume < nonce
    requires forall v | v in s.volumes :: v < nonce
    ensures Unused(s, nonce) && nonce !in s.volumes
  {
  }

  lemma GrowthAccounted(s0: State, s: State, stages: map<nat, Access>, stage: ContainerStage)
    requires Accounted(s0, stages, None) && Grew(s0, s, stage)
    ensures Accounted(s, stages, Some(stage))
  {
  }

  /** Releasing a stage that was being built leaves the runtime as it was before. */
  lemma GrowthReleased(s0: State, s1: State, s2: State, stage: ContainerStage)
    requires Unused(s0, stage.volume) && Grew(s0, s1, stage) && Released(s1, s2, stage)
    requires s2.volumes.Keys == s1.volumes.Keys - {stage.volume}
    ensures s2.containers == s0.containers && s2.volumes.Keys == s0.volumes.Keys
  {
  }

  lemma OtherImport(s: State, stages: map<nat, Access>, imports: map<nat, Archive>,
                    volume: nat, archive: Archive)
    requires volume !in stages && HandedOver(s, stages, imports)
    ensures HandedOver(s, stages, imports[volume := archive])
  {
  }

  lemma Registers(s: State, stage: ContainerStage, archive: Archive,
                  stages: map<nat, Access>, imports: map<nat, Archive>)
    requires HandedOver(s, stages, imports) && stage.volume !in stages && Built(s, stage, archive)
    ensures var access := if stage.readOnly then ReadOnly else Writable;
            HandedOver(s, stages[stage.volume := access], imports[stage.volume := archive])
  {
  }

  lemma Accounts(s: State, stage: ContainerStage, archive: Archive, stages: map<nat, Access>)
    requires Accounted(s, stages, Some(stage)) && Built(s, stage, archive)
    ensures Accounted(s, stages[stage.volume := if stage.readOnly then ReadOnly else Writable], None)
  {
  }

  /** A removed attempt leaves the containers and volume names it found. */
  lemma AttemptGone(before: State, during: State, after: State, c: Container)
    requires c.name.Attempt? && !before.HasName(c.name)
    requires during.containers == before.containers || Added(before, during.(volumes := before.volumes), c)
    requires during.volumes.Keys == before.volumes.Keys
    requires after == during || after == during.Without(ByName(c.name))
    requires !after.HasName(c.name)
    ensures after.containers == before.containers && after.volumes.Keys == before.volumes.Keys
  {
    forall id | id in before.containers
      ensures id in after.containers && after.containers[id] == before.containers[id]
    {
      assert before.containers[id].name != c.name;
    }
  }

  lemma AccountedFor(before: State, after: State, stages: map<nat, Access>)
    requires Accounted(before, stages, None)
    requires after.containers == before.containers && after.volumes.Keys == before.volumes.Keys
    ensures Accounted(after, stages, None)
  {
  }

  lemma EmptyAccounts(s: State, imports: map<nat, Archive>)
    requires s.Empty()
    ensures Accounted(s, map[], None) && HandedOver(s, map[], imports)
  {
  }

  lemma BuiltWritable(s0: State, s: State, stage: ContainerStage, archive: Archive)
    requires Unused(s0, stage.volume) && !stage.readOnly
    requires Imported(s0, s, stage, archive)
    ensures Built(s, stage, archive)
  {
    var id :| id in s.containers && id !in s0.containers
      && s.containers == s0.containers[id := Container(Keeper(stage.volume), {Mount(stage.volume, true)})];
    assert s.containers[id].Uses(stage.volume);
  }

  /** Between the import and the end of the handover some helper always holds the volume. */
  lemma StaysHeld(s0: State, s3: State, s4: State, s: State, stage: ContainerStage, archive: Archive)
    requires stage.readOnly && Imported(s0, s3, stage, archive)
    requires s4 == s3 || Added(s3, s4, Container(Keeper(stage.volume), {Mount(stage.volume, false)}))
    requires s == s4 || (s4 != s3 && s == s4.Without(ByName(Importer(stage.volume))))
    ensures s.Holds(stage.volume, archive)
  {
    var id :| id in s3.containers && id !in s0.containers
      && s3.containers == s0.containers[id := Container(Importer(stage.volume), {Mount(stage.volume, true)})];
    assert s4.containers[id].Uses(stage.volume);
    if s != s4 {
      var keeper :| keeper in s4.containers && keeper !in s3.containers
        && s4.containers == s3.containers[keeper := Container(Keeper(stage.volume), {Mount(stage.volume, false)})];
      assert s.containers[keeper].Uses(stage.volume);
      assert State(s.containers, s4.volumes).Mounted(stage.volume);
    }
  }

  lemma BuiltReadOnly(s0: State, s3: State, s4: State, s5: State,
                      stage: ContainerStage, archive: Archive)
    requires Unused(s0, stage.volume) && stage.readOnly
    requires Imported(s0, s3, stage, archive)
    requires Added(s3, s4, Container(Keeper(stage.volume), {Mount(stage.volume, false)}))
    requires s5 == s4 || s5 == s4.Without(ByName(Importer(stage.volume)))
    requires !s5.HasName(Importer(stage.volume))
    ensures Built(s5, stage, archive)
  {
    var id :| id in s4.containers && id !in s3.containers
      && s4.containers == s3.containers[id := Container(Keeper(stage.volume), {Mount(stage.volume, false)})];
    assert s5.containers[id] == Container(Keeper(stage.volume), {Mount(stage.volume, false)});
    assert s5.containers[id].Uses(stage.volume);
    assert State(s5.containers, s4.volumes).Mounted(stage.volume);
    forall other | other in s5.containers
      ensures Mount(stage.volume, true) !in s5.containers[other].mounts
    {
      assert s5.containers[other].name != Importer(stage.volume);
      assert other == id || other in s3.containers;
    }
  }

  class ContainerExecutor {
    const runtime: Runtime
    var stages: map<nat, Access>
    var cleanupErr: Error
    /** The archive each registered stage was imported from. */
    ghost var imports: map<nat, Archive>
    /** Every registered stage is handed over. Only the reclaiming of all orphans suspends this. */
    ghost var intact: bool

    ghost predicate ValidBut(handled: Option<ContainerStage>)
      reads this, runtime
    {
      && runtime.Valid()
      && (forall v | v in stages :: v < runtime.nextNonce)
      && cleanupErr <= {ContainerCleanup}
      && (cleanupErr == NIL ==> intact && Accounted(runtime.state, stages, handled))
      && (intact ==> HandedOver(runtime.state, stages, imports))
    }

    /** The resource ledger: a resource no stage accounts for has set `cleanupErr`. */
    ghost predicate Valid()
      reads this, runtime
    {
      ValidBut(None)
    }

    lemma AnyStageMayBeHandled(stage: ContainerStage)
      requires Valid()
      ensures ValidBut(Some(stage))
    {
      hide HandedOver;
    }

    /** Stages registered throughout stayed handed over in every state on the way. */
    twostate predicate StayedSealed(throughout: map<nat, Access>)
      reads this, runtime
    {
      && old(runtime.history) <= runtime.history
      && (old(intact) ==>
            forall i | |old(runtime.history)| <= i < |runtime.history| ::
              HandedOver(runtime.history[i], throughout, imports))
    }

    constructor (runtime: Runtime)
      requires runtime.Valid() && runtime.state.Empty()
      ensures Valid() && this.runtime == runtime && cleanupErr == NIL && stages == map[]
    {
      this.runtime := runtime;
      stages, cleanupErr, imports, intact := map[], NIL, map[], true;
    }

    /** A new session knows nothing about what an earlier one left. */
    constructor Orphaned(runtime: Runtime)
      requires runtime.Valid()
      ensures Valid() && this.runtime == runtime && cleanupErr == {ContainerCleanup} && stages == map[]
    {
      this.runtime := runtime;
      stages, cleanupErr, imports, intact := map[], {ContainerCleanup}, map[], true;
    }

    /** `rm` followed by an independent listing by name. */
    method RemoveAndConfirm(ref: Ref) returns (err: Error)
      requires runtime.Valid()
      modifies runtime`state, runtime`history
      ensures runtime.Valid() && runtime.Stepped()
      ensures runtime.state == old(runtime.state) || runtime.state == old(runtime.state).Without(ref)
      ensures err == NIL || err == {ContainerCleanup}
      ensures err == NIL && ref.ByName? ==> !runtime.state.HasName(ref.name)
    {
      var removed := runtime.Remove(ref);
      var listed, absent := runtime.AbsentByName(ref);
      if !listed || !absent {
        return {ContainerCleanup};
      }
      var expired: bool := *;
      if !removed && expired {
        return {ContainerCleanup};
      }
      return NIL;
    }

    /** Remove the helpers of a stage that is no longer registered. */
    method RemoveHelpers(stage: ContainerStage) returns (err: Error)
      requires ValidBut(Some(stage)) && stage.volume !in stages
      modifies runtime`state, runtime`history
      ensures ValidBut(Some(stage)) && StayedSealed(stages)
      ensures runtime.state.volumes.Keys == old(runtime.state).volumes.Keys
      ensures err == NIL || err == {ContainerCleanup}
      ensures err == NIL ==> Released(old(runtime.state), runtime.state, stage)
    {
      hide HandedOver;
      ghost var before := runtime.state;
      err := NIL;
      if stage.readOnly {
        err := RemoveAndConfirm(ByName(Importer(stage.volume)));
        if intact {
          RemovalKeeps(before, Importer(stage.volume), stages, imports);
        }
      }
      ghost var middle := runtime.state;
      var keeperErr := RemoveAndConfirm(ByName(Keeper(stage.volume)));
      if intact {
        RemovalKeeps(middle, Keeper(stage.volume), stages, imports);
      }
      err := err + keeperErr;
      if err == NIL {
        Releases(before, middle, runtime.state, stage);
      }
    }

    method RemoveStagingVolume(volume: nat) returns (err: Error)
      requires runtime.Valid()
      requires intact ==> HandedOver(runtime.state, stages, imports)
      requires volume !in stages
      modifies runtime`state, runtime`history
      ensures runtime.Valid() && runtime.nextNonce == old(runtime.nextNonce)
      ensures StayedSealed(stages)
      ensures intact ==> HandedOver(runtime.state, stages, imports)
      ensures runtime.state.containers == old(runtime.state).containers
      ensures runtime.state.volumes == old(runtime.state).volumes
              || runtime.state.volumes == old(runtime.state).volumes - {volume}
      ensures err == NIL || err == {ContainerCleanup}
      ensures err == NIL ==> volume !in runtime.state.volumes
    {
      err := NIL;
      var listed, volumes := runtime.ListVolumes();
      if !listed {
        err := {ContainerCleanup};
      }
      if volume in volumes {
        var ok := runtime.RemoveVolume(volume);
        if intact {
          VolumeRemovalKeeps(old(runtime.state), runtime.state, volume, stages, imports);
        }
        if !ok {
          err := {ContainerCleanup};
        }
      }
      var verified, remaining := runtime.ListVolumes();
      if !verified || volume in remaining {
        err := {ContainerCleanup};
      }
    }

    method Close(stage: ContainerStage) returns (err: Error)
      requires ValidBut(Some(stage))
      modifies this`stages, this`cleanupErr, runtime`state, runtime`history
      ensures Valid() && StayedSealed(stages)
      ensures stages == old(stages) - {stage.volume}
      ensures err != NIL ==> err == {ContainerCleanup} && cleanupErr == err
      ensures err == NIL ==>
                && cleanupErr == old(cleanupErr)
                && Released(old(runtime.state), runtime.state, stage)
                && runtime.state.volumes.Keys == old(runtime.state).volumes.Keys - {stage.volume}
    {
      hide HandedOver;
      if intact {
        ForgettingKeeps(runtime.state, stages, imports, stage.volume);
      }
      stages := stages - {stage.volume};
      err := RemoveHelpers(stage);
      var volumeErr := RemoveStagingVolume(stage.volume);
      err := err + volumeErr;
      if err != NIL {
        cleanupErr := err;
      }
    }

    /** Create the volume and import into it through a writable helper. */
    method ImportStage(stage: ContainerStage, archive: Archive) returns (err: Error)
      requires runtime.Valid() && stage.volume < runtime.nextNonce && stage.volume !in stages
      requires intact ==> HandedOver(runtime.state, stages, imports)
      requires Unused(runtime.state, stage.volume) && stage.volume !in runtime.state.volumes
      modifies runtime`state, runtime`history, runtime`nextId
      ensures runtime.Valid() && runtime.nextNonce == old(runtime.nextNonce)
      ensures StayedSealed(stages)
      ensures intact ==> HandedOver(runtime.state, stages, imports)
      ensures Grew(old(runtime.state), runtime.state, stage)
      ensures err == NIL ==> Imported(old(runtime.state), runtime.state, stage, archive)
      ensures err <= {ContainerCleanup, Other}
      ensures err == NIL ==> |runtime.history| == |old(runtime.history)| + 3
      ensures err == NIL ==> runtime.history[|runtime.history| - 1] == runtime.state
    {
      hide HandedOver, Grew, Unused, Added, Imported, Runtime.Valid, State.HasName, State.MountedWritable;
      ghost var s0 := runtime.state;
      var ok := runtime.CreateVolume(stage.volume);
      ghost var s1 := runtime.state;
      Creates(s0, s1, stage, stages, imports, intact);
      if !ok { return {Other}; }
      var importer := stage.WritableHelper();
      ok := runtime.RunHelper(importer, Mount(stage.volume, true));
      ghost var s2 := runtime.state;
      Launches(s0, s1, s2, stage, importer, Mount(stage.volume, true), stages, imports, intact);
      if !ok { return {Other}; }
      ok := runtime.Import(stage.volume, archive);
      Fills(s0, s2, runtime.state, stage, stages, imports, intact);
      if !ok { return {Other}; }
      ImportedVia(s0, s1, s2, runtime.state, stage, archive);
      return NIL;
    }

    /** Start the read-only keeper before the writable importer goes, so the volume stays mounted. */
    method HandOver(stage: ContainerStage, archive: Archive, ghost s0: State) returns (err: Error)
      requires runtime.Valid() && stage.volume < runtime.nextNonce && stage.volume !in stages
      requires intact ==> HandedOver(runtime.state, stages, imports)
      requires stage.readOnly && Unused(s0, stage.volume)
      requires Grew(s0, runtime.state, stage) && Imported(s0, runtime.state, stage, archive)
      modifies runtime`state, runtime`history, runtime`nextId
      ensures runtime.Valid() && runtime.nextNonce == old(runtime.nextNonce)
      ensures StayedSealed(stages)
      ensures forall i | |old(runtime.history)| <= i < |runtime.history| ::
                runtime.history[i].Holds(stage.volume, archive)
      ensures intact ==> HandedOver(runtime.state, stages, imports)
      ensures Grew(s0, runtime.state, stage)
      ensures err == NIL ==> Built(runtime.state, stage, archive)
      ensures err <= {ContainerCleanup, Other}
    {
      hide HandedOver, Grew, Built, Unused, Added, Imported, Runtime.Valid, State.HasName, State.Without, State.Holds;
      ghost var s3 := runtime.state;
      var ok := runtime.RunHelper(Keeper(stage.volume), Mount(stage.volume, false));
      ghost var s4 := runtime.state;
      Launches(s0, s3, s4, stage, Keeper(stage.volume), Mount(stage.volume, false), stages, imports, intact);
      StaysHeld(s0, s3, s4, s4, stage, archive);
      if !ok { return {Other}; }
      err := RemoveAndConfirm(ByName(Importer(stage.volume)));
      Retires(s0, s4, runtime.state, stage, stages, imports, intact);
      StaysHeld(s0, s3, s4, runtime.state, stage, archive);
      if err == NIL {
        BuiltReadOnly(s0, s3, s4, runtime.state, stage, archive);
      }
    }

    /** Import an archive into a bounded private volume. On failure nothing of it stays behind,
        unless the error reports an unconfirmed cleanup. */
    method NewStage(archive: Archive, readOnly: bool) returns (stage: Option<ContainerStage>, err: Error)
      requires Valid()
      modifies this`stages, this`imports, this`cleanupErr, runtime
      ensures Valid() && StayedSealed(old(stages)) && old(runtime.nextNonce) <= runtime.nextNonce
      ensures old(cleanupErr) != NIL ==> cleanupErr != NIL
      ensures forall v | v in old(stages) && v in old(imports) :: v in imports && imports[v] == old(imports)[v]
      ensures stage.None? ==> err == {Other} && runtime.state == old(runtime.state)
      ensures err == NIL ==>
                && stage.Some? && stage.value == ContainerStage(old(runtime.nextNonce), readOnly)
                && stages == old(stages)[stage.value.volume := if readOnly then ReadOnly else Writable]
                && Built(runtime.state, stage.value, archive)
                && Grew(old(runtime.state), runtime.state, stage.value)
                && cleanupErr == old(cleanupErr)
      ensures err == NIL && readOnly ==>
                // The third command completed the import; the volume stayed mounted ever since.
                forall i | |old(runtime.history)| + 2 <= i < |runtime.history| ::
                  runtime.history[i].Holds(stage.value.volume, archive)
      ensures err != NIL ==> stages == old(stages)
      ensures HostProcessCleanup !in err
      ensures err != NIL && ContainerCleanup !in err ==>
                && cleanupErr == old(cleanupErr)
                && runtime.state.containers == old(runtime.state).containers
                && runtime.state.volumes.Keys == old(runtime.state).volumes.Keys
    {
      hide HandedOver, Grew, Built, Unused, Imported, Accounted, State.Holds, Released;
      var entropy: bool := *;
      if !entropy { return None, {Other}; }
      ghost var s0 := runtime.state;
      var volume := runtime.Fresh();
      stage := Some(ContainerStage(volume, readOnly));
      UnusedNonce(s0, volume);
      err := PullAndBuild(stage.value, archive);
      if cleanupErr == NIL {
        GrowthAccounted(s0, runtime.state, stages, stage.value);
      }
      if err == NIL {
        if cleanupErr == NIL {
          Accounts(runtime.state, stage.value, archive, stages);
        }
        if intact {
          Registers(runtime.state, stage.value, archive, stages, imports);
          forall i | |old(runtime.history)| <= i < |runtime.history|
            ensures HandedOver(runtime.history[i], stages, imports[volume := archive])
          {
            OtherImport(runtime.history[i], stages, imports, volume, archive);
          }
        }
        imports := imports[volume := archive];
        stages := stages[volume := if readOnly then ReadOnly else Writable];
      } else {
        ghost var s1 := runtime.state;
        assert stages - {volume} == stages;
        var closeErr := Close(stage.value);
        if closeErr == NIL {
          GrowthReleased(s0, s1, runtime.state, stage.value);
        }
        err := err + closeErr;
      }
    }

    method PullAndBuild(stage: ContainerStage, archive: Archive) returns (err: Error)
      requires runtime.Valid() && stage.volume < runtime.nextNonce && stage.volume !in stages
      requires intact ==> HandedOver(runtime.state, stages, imports)
      requires Unused(runtime.state, stage.volume) && stage.volume !in runtime.state.volumes
      modifies runtime`state, runtime`history, runtime`nextId
      ensures runtime.Valid() && runtime.nextNonce == old(runtime.nextNonce)
      ensures StayedSealed(stages)
      ensures intact ==> HandedOver(runtime.state, stages, imports)
      ensures Grew(old(runtime.state), runtime.state, stage)
      ensures err == NIL ==> Built(runtime.state, stage, archive)
      ensures err <= {ContainerCleanup, Other}
      ensures err == NIL && stage.readOnly ==>
                forall i | |old(runtime.history)| + 2 <= i < |runtime.history| ::
                  runtime.history[i].Holds(stage.volume, archive)
    {
      hide HandedOver, Built, Unused, Imported, State.Holds;
      var available: bool := *;
      if !available { return {Other}; }
      ghost var s0 := runtime.state;
      err := ImportStage(stage, archive);
      if err != NIL { return; }
      HeldOnImport(s0, runtime.state, stage, archive);
      if stage.readOnly {
        err := HandOver(stage, archive, s0);
      } else {
        BuiltWritable(s0, runtime.state, stage, archive);
      }
    }

    /** One attempt of a container step. `launched` is the image it started, if it got that far. */
    method RunAttempt(job: Job, pinned: Option<nat>)
      returns (err: Error, image: Option<nat>, launched: Option<nat>)
      requires Valid()
      modifies this`cleanupErr, runtime
      ensures Valid() && StayedSealed(stages) && old(runtime.nextNonce) <= runtime.nextNonce
      // Uncertain cleanup lets nothing run.
      ensures old(cleanupErr) != NIL ==>
                err == old(cleanupErr) && launched == None && image == pinned
                && runtime.state == old(runtime.state) && cleanupErr == old(cleanupErr)
      ensures launched.Some? ==> Admitted(job)
      ensures cleanupErr != NIL ==> ContainerCleanup in err
      ensures HostProcessCleanup !in err
      ensures ContainerCleanup !in err ==>
                && runtime.state.containers == old(runtime.state).containers
                && runtime.state.volumes.Keys == old(runtime.state).volumes.Keys
      // The image is resolved once and started by its identifier.
      ensures pinned.Some? ==> image == pinned
      ensures launched.Some? ==> launched == image
    {
      hide HandedOver, Accounted, State.Without;
      image, launched := pinned, None;
      if cleanupErr != NIL {
        return cleanupErr, image, launched;
      }
      if !Admitted(job) {
        return {InvalidStep}, image, launched;
      }
      var limited, expired: bool := *, *;
      if !limited {
        return {if expired then Other else ContainerUnavailable}, image, launched;
      }
      if image.None? {
        image := *;
        if image.None? {
          // The image cannot be had right now, or may never be run.
          var malformed: bool := *;
          return {if expired || !malformed then Other else InvalidStep}, image, launched;
        }
      }
      var entropy: bool := *;
      if !entropy {
        return {Other}, image, launched;
      }
      var launches: bool;
      err, launches := LaunchAttempt(job);
      launched := if launches then image else None;
    }

    /** Start the attempt under a fresh name, and remove it again. */
    method LaunchAttempt(job: Job) returns (err: Error, launches: bool)
      requires Valid() && cleanupErr == NIL && Admitted(job)
      modifies this`cleanupErr, runtime
      ensures Valid() && StayedSealed(stages) && old(runtime.nextNonce) <= runtime.nextNonce
      ensures cleanupErr != NIL ==> ContainerCleanup in err
      ensures HostProcessCleanup !in err
      ensures ContainerCleanup !in err ==>
                && runtime.state.containers == old(runtime.state).containers
                && runtime.state.volumes.Keys == old(runtime.state).volumes.Keys
    {
      hide HandedOver, Accounted, State.Without;
      ghost var before := runtime.state;
      var name := Attempt(runtime.nextNonce);
      var nonce := runtime.Fresh();
      launches := *;
      if launches {
        var ok := runtime.RunWorkload(name, job.Mounts());
        err := if ok then NIL else {Other};
        WorkloadKeeps(before, runtime.state, Container(name, job.Mounts()), stages, imports);
      } else {
        err := {LogDelivery};
      }
      ghost var during := runtime.state;
      var removeErr := RemoveAndConfirm(ByName(name));
      RemovalKeeps(during, name, stages, imports);
      assert StayedSealed(stages);
      if removeErr != NIL {
        cleanupErr := removeErr;
        err := err + removeErr;
      } else {
        AttemptGone(before, during, runtime.state, Container(name, job.Mounts()));
        AccountedFor(before, runtime.state, stages);
      }
      var flushed: bool := *;
      if !flushed {
        err := err + {LogDelivery};
      }
    }

    /** A step may write only to a registered writable stage, and read only registered ones. */
    predicate Admitted(job: Job)
      reads this
    {
      && (job.stageVolume.Some? ==>
            job.stageVolume.value in stages && stages[job.stageVolume.value] == Writable)
      && (job.artifactVolume.Some? ==> job.artifactVolume.value in stages)
    }

    /** Remove every orphan of this agent. Only a final listing that shows none clears the error. */
    method Ready() returns (err: Error)
      requires Valid()
      modifies this`stages, this`cleanupErr, this`intact, runtime`state, runtime`history
      ensures Valid()
      ensures err == NIL ==> runtime.state.Empty() && stages == map[] && cleanupErr == NIL
      ensures err != NIL ==> err == {ContainerCleanup} || err == {ContainerUnavailable}
      ensures err == {ContainerUnavailable} ==> runtime.state == old(runtime.state)
      ensures old(cleanupErr) != NIL && err != NIL ==> cleanupErr != NIL
      ensures Shrunk(old(runtime.state), runtime.state)
    {
      hide HandedOver, State.Without;
      var reachable: bool := *;
      if !reachable {
        return {ContainerUnavailable};
      }
      var listed, ids := runtime.ListContainers();
      if !listed {
        return {ContainerCleanup};
      }
      intact := false;
      err := RemoveAll(ids);
      if err == NIL {
        err := CleanStagingVolumes();
      }
      if err != NIL {
        cleanupErr := err;
        return;
      }
      stages := map[];
      var verified, remaining := runtime.ListContainers();
      if !verified || remaining != {} {
        cleanupErr := {ContainerCleanup};
        return cleanupErr;
      }
      cleanupErr, intact := NIL, true;
      EmptyAccounts(runtime.state, imports);
    }

    method RemoveAll(ids: set<nat>) returns (err: Error)
      requires runtime.Valid()
      modifies runtime`state, runtime`history
      ensures runtime.Valid() && runtime.nextNonce == old(runtime.nextNonce)
      ensures err == NIL || err == {ContainerCleanup}
      ensures Shrunk(old(runtime.state), runtime.state)
    {
      var left := ids;
      while left != {}
        invariant runtime.Valid() && runtime.nextNonce == old(runtime.nextNonce)
        invariant Shrunk(old(runtime.state), runtime.state)
      {
        var id :| id in left;
        err := RemoveAndConfirm(ById(id));
        if err != NIL {
          return;
        }
        left := left - {id};
      }
      return NIL;
    }

    method CleanStagingVolumes() returns (err: Error)
      requires runtime.Valid()
      modifies runtime`state, runtime`history
      ensures runtime.Valid() && runtime.nextNonce == old(runtime.nextNonce)
      ensures err == NIL || err == {ContainerCleanup}
      ensures err == NIL ==> runtime.state.volumes == map[]
      ensures Shrunk(old(runtime.state), runtime.state)
    {
      var listed, names := runtime.ListVolumes();
      if !listed {
        return {ContainerCleanup};
      }
      while names != {}
        invariant runtime.Valid() && runtime.nextNonce == old(runtime.nextNonce)
        invariant Shrunk(old(runtime.state), runtime.state)
      {
        var name :| name in names;
        var ok := runtime.RemoveVolume(name);
        if !ok {
          return {ContainerCleanup};
        }
        names := names - {name};
      }
      var verified, remaining := runtime.ListVolumes();
      if !verified || remaining != {} {
        return {ContainerCleanup};
      }
      return NIL;
    }
  }

  datatype Operation =
    | Stage(archive: Archive, readOnly: bool)
    | CloseStage(stage: ContainerStage)
    | Run(job: Job, pinned: Option<nat>)

  /** Over any sequence of operations with any failures, failed cleanups included, a package that was
      handed over stays mounted, unwritable and equal to what was imported, until it is closed or every
      orphan is reclaimed. */
  method Serve(executor: ContainerExecutor, operations: seq<Operation>, package: nat)
    requires executor.Valid() && executor.intact
    requires package in executor.stages && executor.stages[package] == ReadOnly && package in executor.imports
    requires forall o | o in operations && o.CloseStage? :: o.stage.volume != package
    modifies executor, executor.runtime
    ensures executor.Valid() && package in executor.stages && executor.stages[package] == ReadOnly
    ensures old(executor.runtime.history) <= executor.runtime.history
    ensures forall i | |old(executor.runtime.history)| <= i < |executor.runtime.history| ::
              executor.runtime.history[i].Sealed(package, old(executor.imports)[package])
  {
    hide Accounted, HandedOver, State.Sealed, Built, Grew, Released, State.Holds;
    for k := 0 to |operations|
      invariant executor.Valid() && executor.intact && old(executor.runtime.history) <= executor.runtime.history
      invariant forall i | |old(executor.runtime.history)| <= i < |executor.runtime.history| ::
                  executor.runtime.history[i].Sealed(package, old(executor.imports)[package])
      invariant package in executor.stages && executor.stages[package] == ReadOnly
      invariant package in executor.imports && executor.imports[package] == old(executor.imports)[package]
    {
      ghost var stages, start := executor.stages, |executor.runtime.history|;
      var err;
      match operations[k] {
        case Stage(archive, readOnly) =>
          var stage;
          stage, err := executor.NewStage(archive, readOnly);
        case CloseStage(stage) =>
          executor.AnyStageMayBeHandled(stage);
          err := executor.Close(stage);
          stages := stages - {stage.volume};
        case Run(job, pinned) =>
          var image, launched;
          err, image, launched := executor.RunAttempt(job, pinned);
      }
      StillSealed(executor.runtime.history, start, stages, executor.imports, package);
    }
  }

  lemma StillSealed(history: seq<State>, start: nat, stages: map<nat, Access>, imports: map<nat, Archive>, package: nat)
    requires forall i | start <= i < |history| :: HandedOver(history[i], stages, imports)
    requires package in stages && stages[package] == ReadOnly && package in imports
    ensures forall i | start <= i < |history| :: history[i].Sealed(package, imports[package])
  {
  }
}
