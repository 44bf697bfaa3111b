/** The part of the container runtime that carries this agent's label: its containers and its
    staging volumes. Every command may fail, and a failed command may still have had its effect.
    A listing that succeeds is accurate. */
module ContainerRuntime {

  /** Names derived from a random nonce, so names of different origin never collide. */
  datatype Name =
    | Keeper(volume: nat)
    | Importer(volume: nat)
    | Attempt(nonce: nat)
  {
    function Nonce(): nat {
      match this
      case Keeper(v) => v
      case Importer(v) => v
      case Attempt(n) => n
    }
  }

  datatype Mount = Mount(volume: nat, writable: bool)

  datatype Container = Container(name: Name, mounts: set<Mount>)
  {
    predicate Uses(volume: nat) {
      Mount(volume, true) in mounts || Mount(volume, false) in mounts
    }
  }

  /** What `rm` and `ps` are given: a name, or an identifier from a listing. */
  datatype Ref = ByName(name: Name) | ById(id: nat)

  type Archive = seq<int>

  datatype State = State(containers: map<nat, Container>, volumes: map<nat, Archive>)
  {
    predicate Mounted(volume: nat) {
      exists id | id in containers :: containers[id].Uses(volume)
    }

    predicate MountedWritable(volume: nat) {
      exists id | id in containers :: Mount(volume, true) in containers[id].mounts
    }

    predicate HasName(name: Name) {
      exists id | id in containers :: containers[id].name == name
    }

    /** The volume holds exactly `archive` and stays alive. */
    predicate Holds(volume: nat, archive: Archive) {
      volume in volumes && volumes[volume] == archive && Mounted(volume)
    }

    /** Moreover, nothing can change it. */
    predicate Sealed(volume: nat, archive: Archive) {
      Holds(volume, archive) && !MountedWritable(volume)
    }

    predicate Refers(id: nat, ref: Ref) {
      && id in containers
      && match ref
         case ByName(name) => containers[id].name == name
         case ById(other) => id == other
    }

    /** Remove the containers `ref` denotes; a tmpfs volume nobody mounts any more is emptied. */
    function Without(ref: Ref): State {
      var kept := map id | id in containers && !Refers(id, ref) :: containers[id];
      State(kept, map v | v in volumes ::
        if State(kept, volumes).Mounted(v) then volumes[v] else [])
    }

    predicate Empty() {
      containers == map[] && volumes == map[]
    }
  }

  class Runtime {
    var state: State
    /** Every state the runtime has passed through, oldest first. */
    ghost var history: seq<State>
    var nextId: nat
    var nextNonce: nat

    /** Identifiers and nonces handed out so far bound the ones in use. */
    ghost predicate Valid()
      reads this
    {
      && (forall id | id in state.containers ::
            id < nextId && state.containers[id].name.Nonce() < nextNonce)
      && (forall id, m | id in state.containers && m in state.containers[id].mounts ::
            m.volume < nextNonce)
      && (forall v | v in state.volumes :: v < nextNonce)
    }

    /** What every command leaves behind in `history`. */
    twostate predicate Stepped()
      reads this
    {
      history == old(history) + [state] && nextNonce == old(nextNonce)
    }

    method Fresh() returns (nonce: nat)
      requires Valid()
      modifies this`nextNonce
      ensures Valid() && nonce == old(nextNonce) && nextNonce == nonce + 1
    {
      nonce := nextNonce;
      nextNonce := nextNonce + 1;
    }

    /** `volume create`. */
    method CreateVolume(volume: nat) returns (ok: bool)
      requires Valid() && volume < nextNonce && volume !in state.volumes
      modifies this`state, this`history
      ensures Valid() && Stepped()
      ensures state == old(state) || state == old(state).(volumes := old(state).volumes[volume := []])
      ensures ok ==> volume in state.volumes
    {
      var applied: bool := *;
      if applied {
        state := state.(volumes := state.volumes[volume := []]);
      }
      history := history + [state];
      ok := *;
      ok := ok && applied;
    }

    /** `run --detach` of a helper that only holds its mount. */
    method RunHelper(name: Name, mount: Mount) returns (ok: bool)
      requires Valid() && name.Nonce() < nextNonce && mount.volume < nextNonce
      modifies this`state, this`history, this`nextId
      ensures Valid() && Stepped()
      ensures state.volumes == old(state).volumes
      ensures state == old(state) || Added(old(state), state, Container(name, {mount}))
      ensures ok ==> state != old(state)
    {
      ok := Launch(Container(name, {mount}));
      history := history + [state];
    }

    /** `run` of a workload to completion. It may rewrite every volume it mounts writable. */
    method RunWorkload(name: Name, mounts: set<Mount>) returns (ok: bool)
      requires Valid() && name.Nonce() < nextNonce
      requires forall m | m in mounts :: m.volume < nextNonce
      modifies this`state, this`history, this`nextId
      ensures Valid() && Stepped()
      ensures state.volumes.Keys == old(state).volumes.Keys
      ensures forall v | v in state.volumes && Mount(v, true) !in mounts ::
                state.volumes[v] == old(state).volumes[v]
      ensures state.containers == old(state).containers
              || Added(old(state), state.(volumes := old(state).volumes), Container(name, mounts))
    {
      ok := Launch(Container(name, mounts));
      if ok {
        var written: map<nat, Archive> := *;
        state := state.(volumes := map v | v in state.volumes ::
          if Mount(v, true) in mounts && v in written then written[v] else state.volumes[v]);
        ok := *;
      }
      history := history + [state];
    }

    method Launch(c: Container) returns (ok: bool)
      requires Valid() && c.name.Nonce() < nextNonce
      requires forall m | m in c.mounts :: m.volume < nextNonce
      modifies this`state, this`nextId
      ensures Valid()
      ensures state == old(state) || Added(old(state), state, c)
      ensures ok ==> state != old(state)
    {
      var applied: bool := *;
      if applied {
        state := state.(containers := state.containers[nextId := c]);
        assert nextId in state.containers && nextId !in old(state).containers;
        nextId := nextId + 1;
      }
      ok := *;
      ok := ok && applied;
    }

    /** `exec ... tar -xf -` in a container that mounts the volume writable. */
    method Import(volume: nat, archive: Archive) returns (ok: bool)
      requires Valid() && volume in state.volumes && state.MountedWritable(volume)
      modifies this`state, this`history
      ensures Valid() && Stepped()
      ensures state.containers == old(state).containers
      ensures state.volumes.Keys == old(state).volumes.Keys
      ensures forall v | v in state.volumes && v != volume ::
                state.volumes[v] == old(state).volumes[v]
      ensures ok ==> state.volumes[volume] == archive
    {
      var partial: Archive := *;
      ok := *;
      var bytes := if ok then archive else partial;
      state := state.(volumes := state.volumes[volume := bytes]);
      history := history + [state];
    }

    /** `rm --force`. */
    method Remove(ref: Ref) returns (ok: bool)
      requires Valid()
      modifies this`state, this`history
      ensures Valid() && Stepped()
      ensures state == old(state) || state == old(state).Without(ref)
    {
      var applied: bool := *;
      if applied {
        state := state.Without(ref);
      }
      history := history + [state];
      ok := *;
    }

    /** `ps --filter=name=...`. The filter matches substrings, so it may also show others. */
    method AbsentByName(ref: Ref) returns (ok: bool, absent: bool)
      requires Valid()
      ensures ok && absent && ref.ByName? ==> !state.HasName(ref.name)
    {
      ok, absent := *, *;
      if ref.ByName? && state.HasName(ref.name) {
        absent := false;
      }
    }

    /** `ps --filter=label=...`. */
    method ListContainers() returns (ok: bool, ids: set<nat>)
      requires Valid()
      ensures ok ==> ids == state.containers.Keys
    {
      ok := *;
      ids := if ok then state.containers.Keys else {};
    }

    /** `volume ls --filter=label=...`. A failed listing may print part of the names. */
    method ListVolumes() returns (ok: bool, names: set<nat>)
      requires Valid()
      ensures names <= state.volumes.Keys
      ensures ok ==> names == state.volumes.Keys
    {
      ok := *;
      var shown: set<nat> := *;
      names := if ok then state.volumes.Keys else shown * state.volumes.Keys;
    }

    /** `volume rm --force`. The runtime refuses while a container mounts the volume. */
    method RemoveVolume(volume: nat) returns (ok: bool)
      requires Valid()
      modifies this`state, this`history
      ensures Valid() && Stepped()
      ensures state == old(state)
              || (!old(state).Mounted(volume) && state == old(state).(volumes := old(state).volumes - {volume}))
    {
      var applied: bool := *;
      if applied && !state.Mounted(volume) {
        state := state.(volumes := state.volumes - {volume});
      }
      history := history + [state];
      ok := *;
    }
  }

  /** `after` is `before` with one more container, a new `c`. */
  predicate Added(before: State, after: State, c: Container) {
    && after.volumes == before.volumes
    && exists id | id in after.containers ::
         id !in before.containers && after.containers == before.containers[id := c]
  }
}
