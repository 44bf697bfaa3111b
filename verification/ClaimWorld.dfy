/** What the agent's claim lifecycle acts on: the marker file with its visible and its durable
    copy, the staging directories, the server, and a record of everything observable that
    happened, together with the rules that record must obey.

    The process may die at any operation. A dead process performs no further operation until the
    next session: every later operation fails without effect. */
module ClaimWorld {
  import opened Options
  import opened Dispatching
  import opened HostTree
  import opened ClaimReports
  import opened ContainerRuntime
  import opened HostSupervision

  datatype Event =
    | Polled(visible: Option<Marker>, durable: Option<Marker>, settled: bool, calm: bool)
    | StartAccepted(id: int)
    | Executed(id: int)
    | Sent(id: int, report: Report, visible: Option<Marker>, durable: Option<Marker>,
           settled: bool, calm: bool)
    | Acknowledged(id: int, report: Report)
    | Wrote(before: Option<Marker>, after: Marker)
    | Secured(marker: Marker)
    | Removed(before: Option<Marker>, empty: bool)

  predicate HasReport(m: Option<Marker>) {
    m.Some? && m.value.HasReport()
  }

  /** Acknowledgement flags are set only for what the server acknowledged. */
  predicate Justified(t: seq<Event>, m: Marker) {
    && m.WellFormed()
    && (m.terminalAcknowledged ==>
          m.terminal.Some? && Acknowledged(m.deployment, m.terminal.value.report) in t)
    && (m.cleanupAcknowledged ==>
          m.cleanup.Some? && Acknowledged(m.deployment, m.cleanup.value.report) in t)
  }

  /** A marker with a report is replaced only by a report of the same claim, and a sealed outcome
      keeps its protocol. */
  predicate Succeeds(before: Option<Marker>, after: Marker) {
    HasReport(before) ==>
      && after.HasReport()
      && after.deployment == before.value.deployment && after.token == before.value.token
      && (before.value.terminal.Some? ==>
            && after.terminal.Some?
            && after.terminal.value.report.protocol == before.value.terminal.value.report.protocol)
  }

  /** A report leaves the disk only once the server has acknowledged it, a cleanup report only when
      moreover nothing is left to clean, or when no workload was ever begun. */
  predicate MayRemove(t: seq<Event>, m: Marker, empty: bool) {
    && (m.terminal.Some? ==> Acknowledged(m.deployment, m.terminal.value.report) in t)
    && (m.cleanup.Some? ==>
          || (empty && Acknowledged(m.deployment, m.cleanup.value.report) in t)
          || Executed(m.deployment) !in t)
  }

  predicate Carries(m: Option<Marker>, id: int, report: Report) {
    && m.Some? && m.value.deployment == id
    && m.value.terminal.Some? && m.value.terminal.value.report == report
  }

  /** The server has acknowledged a report for the claim. */
  ghost predicate Answered(t: seq<Event>, id: int, token: int) {
    exists report :: Acknowledged(id, report) in t && report.token == token
  }

  /** Every outcome that was ever made durable has been acknowledged. */
  ghost predicate AllAnswered(t: seq<Event>) {
    forall m | Secured(m) in t && m.terminal.Some? :: Answered(t, m.deployment, m.token)
  }

  predicate CarriesOutcome(m: Option<Marker>, id: int, token: int) {
    m.Some? && m.value.deployment == id && m.value.token == token && m.value.terminal.Some?
  }

  /** What may happen after the events of `t`. */
  ghost predicate Allowed(t: seq<Event>, e: Event) {
    match e
    case Polled(visible, durable, settled, calm) =>
      calm && !HasReport(visible) && (settled ==> durable == visible) && AllAnswered(t)
    case StartAccepted(id) => StartAccepted(id) !in t
    case Executed(id) => Executed(id) !in t && StartAccepted(id) in t
    case Sent(id, report, visible, durable, settled, calm) =>
      report.Ordinary() ==>
        && calm
        && (|| (Carries(visible, id, report) && (settled ==> durable == visible))
            || Executed(id) !in t)
    case Acknowledged(_, _) => true
    case Wrote(before, after) => Justified(t, after) && Succeeds(before, after)
    case Secured(marker) => t != [] && t[|t| - 1].Wrote? && t[|t| - 1].after == marker
    case Removed(before, empty) => before.Some? ==> MayRemove(t, before.value, empty)
  }

  ghost predicate Safe(t: seq<Event>) {
    forall i | 0 <= i < |t| :: Allowed(t[..i], t[i])
  }

  lemma SafeThen(t: seq<Event>, e: Event)
    requires Safe(t) && Allowed(t, e)
    ensures Safe(t + [e])
  {
    var more := t + [e];
    forall i | 0 <= i < |more|
      ensures Allowed(more[..i], more[i])
    {
      if i < |t| {
        assert more[..i] == t[..i];
      } else {
        assert more[..i] == t;
      }
    }
  }

  lemma InPrefix(t: seq<Event>, i: nat, j: nat)
    requires i < j <= |t|
    ensures t[i] in t[..j]
  {
    assert t[..j][i] == t[i];
  }

  /** In every safe record a deployment is executed at most once, after its start was accepted. */
  lemma ExecutedAtMostOnce(t: seq<Event>, i: nat, j: nat, id: int)
    requires Safe(t) && i < |t| && j < |t|
    requires t[i] == Executed(id) && t[j] == Executed(id)
    ensures i == j
    ensures exists k | 0 <= k < i :: t[k] == StartAccepted(id)
  {
    assert Allowed(t[..i], t[i]) && Allowed(t[..j], t[j]);
    if i < j {
      InPrefix(t, i, j);
      assert false;
    }
    if j < i {
      InPrefix(t, j, i);
      assert false;
    }
    assert StartAccepted(id) in t[..i];
    var k :| 0 <= k < i && t[..i][k] == StartAccepted(id);
    assert t[k] == StartAccepted(id);
  }

  lemma ExecutionWasAccepted(t: seq<Event>, id: int)
    requires Safe(t) && Executed(id) in t
    ensures StartAccepted(id) in t
  {
    var i :| 0 <= i < |t| && t[i] == Executed(id);
    ExecutedAtMostOnce(t, i, i, id);
  }

  /** An outcome that was made durable is acknowledged, or both copies of the marker still carry it. */
  ghost predicate Kept(t: seq<Event>, visible: Option<Marker>, durable: Option<Marker>) {
    forall m | Secured(m) in t && m.terminal.Some? ::
      || Answered(t, m.deployment, m.token)
      || (CarriesOutcome(visible, m.deployment, m.token) && CarriesOutcome(durable, m.deployment, m.token))
  }

  lemma KeptLonger(t: seq<Event>, e: Event, visible: Option<Marker>, durable: Option<Marker>)
    requires Kept(t, visible, durable)
    requires e.Secured? && e.marker.terminal.Some? ==>
               && CarriesOutcome(visible, e.marker.deployment, e.marker.token)
               && CarriesOutcome(durable, e.marker.deployment, e.marker.token)
    ensures Kept(t + [e], visible, durable)
  {
    forall m | Secured(m) in t + [e] && m.terminal.Some? && Secured(m) in t && Answered(t, m.deployment, m.token)
      ensures Answered(t + [e], m.deployment, m.token)
    {
      var report :| Acknowledged(m.deployment, report) in t && report.token == m.token;
      assert Acknowledged(m.deployment, report) in t + [e];
    }
  }

  datatype Reply = NoContent | Conflicted | Refused

  class World {
    const runtime: Runtime
    const forest: Forest
    /** The directory all staging is created in. */
    const base: Path

    var alive: bool
    var server: Server
    var visible: Option<Marker>
    var durable: Option<Marker>
    /** The last change of the state directory was followed by a successful sync of it. */
    var settled: bool
    var tree: Tree
    ghost var trace: seq<Event>
    /** The host roots recorded for the current claim by acknowledged writes. */
    ghost var obligations: set<Root>
    /** How often the marker was replaced, and how often that was synced. */
    ghost var writes: nat
    ghost var secured: nat

    constructor (runtime: Runtime, forest: Forest, base: Path, server: Server, tree: Tree)
      requires UniqueDirs(tree)
      ensures Inv() && this.runtime == runtime && this.forest == forest && this.base == base
      ensures visible == None && durable == None && trace == [] && obligations == {}
    {
      this.runtime, this.forest, this.base := runtime, forest, base;
      alive, this.server, visible, durable, settled := true, server, None, None, true;
      this.tree, trace, obligations, writes, secured := tree, [], {}, 0, 0;
    }

    ghost predicate Inv()
      reads this
    {
      && Safe(trace) && UniqueDirs(tree)
      && (settled ==> durable == visible)
      && (visible.Some? ==> Justified(trace, visible.value))
      && (durable.Some? ==> Justified(trace, durable.value))
      && (forall id | StartAccepted(id) in trace :: server.Begun(id))
      && Kept(trace, visible, durable)
    }

    ghost predicate Discharged()
      reads this
    {
      forall r | r in obligations :: Purged(tree, r.path)
    }

    /** Nothing of this agent's is running or left behind. */
    ghost predicate Calm()
      reads this, runtime, forest
    {
      runtime.state.Empty() && forest.jobs.processes == map[] && Discharged()
    }

    twostate predicate SameDisk()
      reads this
    {
      && visible == old(visible) && settled == old(settled)
      && (durable == old(durable) || durable == old(visible))
      && tree == old(tree) && obligations == old(obligations)
    }

    /** Whatever happens around the agent between two of its steps. */
    method Environment()
      requires Inv()
      modifies this`alive, this`server, this`durable
      ensures Inv() && SameDisk() && trace == old(trace)
      ensures forall id | old(server).Begun(id) :: server.Begun(id)
    {
      var moves: seq<Move> := *;
      forall id | server.Begun(id)
        ensures server.Run(moves).Begun(id)
      {
        RunKeepsBegun(server, moves, id);
      }
      server := server.Run(moves);
      var writeback, dies: bool := *, *;
      if writeback {
        durable := visible;
      }
      if dies {
        alive := false;
      }
    }

    ghost method Record(e: Event)
      requires Inv() && Allowed(trace, e)
      requires e.StartAccepted? ==> server.Begun(e.id)
      requires e.Secured? ==> visible == Some(e.marker) && durable == Some(e.marker)
      modifies this`trace
      ensures Inv() && trace == old(trace) + [e]
    {
      KeptLonger(trace, e, visible, durable);
      SafeThen(trace, e);
      trace := trace + [e];
    }

    /** Replace the marker: temporary file, rename, sync of the directory. */
    method WriteMarker(m: Marker) returns (ok: bool)
      requires Inv() && Allowed(trace, Wrote(visible, m))
      modifies this`alive, this`server, this`durable, this`visible, this`settled
      modifies this`trace, this`obligations, this`writes, this`secured
      ensures Inv() && tree == old(tree)
      ensures trace == old(trace) || trace == old(trace) + [Wrote(old(visible), m)]
              || trace == old(trace) + [Wrote(old(visible), m)] + [Secured(m)]
      ensures visible == (if trace == old(trace) then old(visible) else Some(m))
      ensures writes == old(writes) + (if trace == old(trace) then 0 else 1)
      ensures durable == old(durable) || durable == old(visible) || durable == Some(m)
      ensures ok ==> visible == Some(m) && durable == Some(m) && settled
      ensures secured == old(secured) + if ok then 1 else 0
      ensures obligations == old(obligations) + (if ok then set r | r in m.hostRoots else {})
    {
      hide Allowed, Inv, Justified, Succeeds;
      ok := RenameMarker(m);
      if ok {
        ok := SyncMarker(m);
      }
    }

    method RenameMarker(m: Marker) returns (ok: bool)
      requires Inv() && Allowed(trace, Wrote(visible, m))
      modifies this`alive, this`server, this`durable, this`visible, this`settled, this`trace, this`writes
      ensures Inv()
      ensures !ok ==> trace == old(trace) && visible == old(visible)
      ensures writes == old(writes) + if ok then 1 else 0
      ensures ok ==> trace == old(trace) + [Wrote(old(visible), m)] && visible == Some(m)
      ensures durable == old(durable) || durable == old(visible)
    {
      Environment();
      ok := *;
      if !alive || !ok {
        return false;
      }
      Record(Wrote(visible, m));
      visible, settled, writes := Some(m), false, writes + 1;
    }

    method SyncMarker(m: Marker) returns (ok: bool)
      requires Inv() && visible == Some(m)
      requires trace != [] && trace[|trace| - 1].Wrote? && trace[|trace| - 1].after == m
      modifies this`alive, this`server, this`durable, this`settled, this`trace, this`obligations, this`secured
      ensures Inv()
      ensures trace == old(trace) + if ok then [Secured(m)] else []
      ensures durable == Some(m) || (!ok && durable == old(durable))
      ensures ok ==> settled
      ensures secured == old(secured) + if ok then 1 else 0
      ensures obligations == old(obligations) + (if ok then set r | r in m.hostRoots else {})
    {
      Environment();
      ok := *;
      if !alive || !ok {
        return false;
      }
      durable, settled, secured := visible, true, secured + 1;
      Record(Secured(m));
      obligations := obligations + set r | r in m.hostRoots;
    }

    /** Remove the marker and sync the directory. A missing marker counts as removed. */
    method RemoveMarker() returns (ok: bool)
      requires Inv()
      requires visible.Some? ==> MayRemove(trace, visible.value, runtime.state.Empty())
      modifies this`alive, this`server, this`durable, this`visible, this`settled, this`trace
      ensures Inv() && tree == old(tree) && obligations == old(obligations)
      ensures trace == old(trace) || exists empty :: trace == old(trace) + [Removed(old(visible), empty)]
      ensures visible == old(visible) || visible == None
      ensures durable == old(durable) || durable == old(visible) || durable == None
      ensures ok ==> visible == None && durable == None
    {
      Environment();
      var removed, synced: bool := *, *;
      if !alive || !removed {
        return false;
      }
      if visible.Some? {
        Record(Removed(visible, runtime.state.Empty()));
        visible, settled := None, false;
      }
      Environment();
      if !alive || !synced {
        return false;
      }
      durable, settled := visible, true;
      return true;
    }

    /** A read sees the latest rename, durable or not. */
    method ReadMarker() returns (ok: bool, m: Option<Marker>)
      requires Inv()
      modifies this`alive, this`server, this`durable
      ensures Inv() && SameDisk() && trace == old(trace)
      ensures ok ==> m == visible
    {
      Environment();
      var readable: bool := *;
      return alive && readable, visible;
    }

    /** Nothing but this report, sent with the marker as it was, and acknowledgements were added to the
        record. */
    twostate predicate OnlyReported(id: int, report: Report)
      reads this
    {
      && old(trace) <= trace
      && forall i | |old(trace)| <= i < |trace| ::
           trace[i].Acknowledged?
           || (&& trace[i].Sent? && trace[i].id == id && trace[i].report == report
               && trace[i].visible == old(visible) && trace[i].settled == old(settled)
               && trace[i].durable in {old(durable), old(visible)})
    }

    /** Send a report until a definite reply arrives, or give up. */
    method Report(id: int, report: Report) returns (reply: Reply)
      requires Inv()
      requires report.Ordinary() ==> Calm() && (Carries(visible, id, report) || Executed(id) !in trace)
      modifies this`alive, this`server, this`durable, this`trace
      ensures Inv() && SameDisk() && OnlyReported(id, report)
      ensures reply == NoContent ==> Acknowledged(id, report) in trace
    {
      Environment();
      if !alive {
        return Refused;
      }
      Record(Sent(id, report, visible, durable, settled, Calm()));
      Environment();
      reply := *;
      if reply == NoContent {
        if !alive {
          return Refused;
        }
        Record(Acknowledged(id, report));
      }
    }

    /** Ask for work. The previous claim's roots are no longer of interest. */
    method Poll() returns (claim: Option<(int, int)>)
      requires Inv() && !HasReport(visible) && Calm()
      modifies this`alive, this`server, this`durable, this`trace, this`obligations
      ensures Inv() && tree == old(tree)
      ensures visible == old(visible) && settled == old(settled)
      ensures durable == old(durable) || durable == old(visible)
      ensures obligations == {}
      ensures trace == old(trace) || exists d, b, c :: trace == old(trace) + [Polled(visible, d, b, c)]
      ensures claim.Some? ==> claim.value.0 >= 1 && claim.value.1 != 0
    {
      Environment();
      if alive {
        Record(Polled(visible, durable, settled, Calm()));
      }
      obligations := {};
      Environment();
      claim := *;
      if !alive || (claim.Some? && (claim.value.0 < 1 || claim.value.1 == 0)) {
        claim := None;
      }
    }

    /** Announce the start, repeating the request while replies get lost. */
    method Start(id: int, token: int) returns (reply: Reply)
      requires Inv()
      modifies this`alive, this`server, this`durable, this`trace
      ensures Inv() && SameDisk() && old(trace) <= trace
      ensures forall i | |old(trace)| <= i < |trace| :: trace[i] == StartAccepted(id)
      ensures reply == NoContent ==> StartAccepted(id) in trace && Executed(id) !in trace
    {
      var requests: int := *;
      while requests > 0
        invariant Inv() && SameDisk() && old(trace) <= trace
        invariant forall i | |old(trace)| <= i < |trace| :: trace[i] == StartAccepted(id)
        decreases requests
      {
        requests := requests - 1;
        Environment();
        if !alive {
          return Refused;
        }
        var arrives, lost: bool := *, *;
        var accepted := arrives && server.AcceptsStart(id, token);
        if accepted {
          ghost var before := trace;
          server := server.(dispatch := server.dispatch[id := Dispatch(Started, token)]);
          Record(StartAccepted(id));
          if Executed(id) in before {
            ExecutionWasAccepted(before, id);
          }
        }
        if !lost {
          if accepted {
            return NoContent;
          }
          reply := *;
          return if reply == NoContent then Refused else reply;
        }
      }
      return Refused;
    }

    /** The first step of the workload is about to run. */
    method BeginExecution(id: int) returns (begun: bool)
      requires Inv() && StartAccepted(id) in trace && Executed(id) !in trace
      modifies this`alive, this`server, this`durable, this`trace
      ensures Inv() && SameDisk()
      ensures trace == old(trace) || trace == old(trace) + [Executed(id)]
    {
      Environment();
      begun := alive;
      if begun {
        Record(Executed(id));
      }
    }

    /** A job may do anything to the host's directories, except link one of them twice. */
    method JobTouchesTree()
      requires Inv()
      modifies this`tree
      ensures Inv()
    {
      var later: Tree := *;
      if forall p, q | p in later && q in later && later[p].Dir? && later[q] == later[p] :: p == q {
        tree := later;
      }
    }

    /** `mkdir` of a new name in `parent`. */
    method MakeDirectory(parent: Path) returns (ok: bool, inode: int, path: Path)
      requires Inv()
      modifies this`tree
      ensures Inv()
      ensures !ok ==> tree == old(tree)
      ensures ok ==>
                && inode != 0 && parent in old(tree) && path !in old(tree)
                && |path| == |parent| + 1 && Below(parent, path)
                && tree == old(tree)[path := Dir(inode)]
    {
      var name: int := *;
      inode := *;
      path := parent + [name];
      ok := alive && inode != 0 && parent in tree && tree[parent].Dir?
            && path !in tree && !(exists p | p in tree :: tree[p] == Dir(inode));
      if ok {
        tree := tree[path := Dir(inode)];
      }
    }

    /** `open` of a directory. */
    method OpenDirectory(path: Path) returns (inode: Option<int>)
      requires Inv()
      ensures inode.Some? ==> Found(tree, Root(path, inode.value))
    {
      var permitted: bool := *;
      if !permitted || path !in tree || !tree[path].Dir? || tree[path].inode == 0 {
        return None;
      }
      return Some(tree[path].inode);
    }

    /** Unpack an archive into a directory. */
    method Populate(top: Path) returns (ok: bool)
      requires Inv()
      modifies this`tree
      ensures Inv()
      ensures forall p | !Below(top, p) ::
                (p in tree <==> p in old(tree)) && (p in tree ==> tree[p] == old(tree)[p])
    {
      var before := tree;
      JobTouchesTree();
      ok := *;
      if exists p | p in tree.Keys + before.Keys ::
           !Below(top, p) && (p !in tree || p !in before || tree[p] != before[p]) {
        tree, ok := before, false;
      }
    }

    /** Where an open directory is linked now. */
    method Locate(inode: int) returns (at: Option<Path>)
      requires Inv()
      ensures at == LinkOf(tree, inode)
    {
      if exists p | p in tree :: tree[p] == Dir(inode) {
        var p :| p in tree && tree[p] == Dir(inode);
        return Some(p);
      }
      return None;
    }

    /** Purge one directory. A failed purge may have removed part of it. */
    method PurgeDirectory(top: Path) returns (ok: bool)
      requires Inv()
      modifies this`tree
      ensures Inv() && Purging(old(tree), tree, top)
      ensures ok ==> Purged(tree, top)
    {
      ok := *;
      ok := ok && alive;
      var part: set<Path> := *;
      var before := tree;
      tree := map p | p in before && !(Below(top, p) && (ok || (alive && p in part))) :: before[p];
    }

    /** The next session. A power failure in between reverts the marker to its durable copy. The
        service manager has ended every process of the last session. */
    method Restart()
      requires Inv() && forest.Valid()
      modifies this`alive, this`visible, this`settled, this`server, this`durable, this`tree, forest
      ensures Inv() && forest.Valid() && forest.jobs.processes == map[]
      ensures trace == old(trace) && obligations == old(obligations)
      ensures visible == old(visible) || visible == old(durable)
      ensures durable == old(durable) || durable == old(visible)
      ensures old(forest.jobs).processes == map[] ==> tree == old(tree)
    {
      Environment();
      var power: bool := *;
      if power {
        visible, settled := durable, true;
      }
      if forest.jobs.processes != map[] {
        JobTouchesTree();
      }
      forest.EndAll();
      alive := true;
    }
  }
}
