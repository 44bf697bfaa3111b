/** The host supervisor: a child subreaper that owns one job's processes, and the confirmation
    the agent reads from it. */
module HostSupervision {
  import opened Options

  /** Processes are identified by birth order; the kernel may hand the same pid out again. */
  datatype Parent = Supervisor | Member(birth: int)

  datatype WaitStatus = Exited(code: int) | Signaled(signal: int)
  {
    function Status(): int {
      match this
      case Exited(code) => code
      case Signaled(signal) => 128 + signal
    }
  }

  datatype Process = Process(pid: int, parent: Parent, exit: ExitState)

  datatype ExitState = Running | Zombie(status: WaitStatus)

  datatype Reap = Reap(birth: int, pid: int, status: WaitStatus)

  type Processes = map<int, Process>

  /** A parent is the supervisor or a running, older process of the same job. */
  predicate Rooted(p: Processes) {
    forall b | b in p && p[b].parent.Member? ::
      var parent := p[b].parent.birth;
      0 <= parent < b && parent in p && p[parent].exit.Running?
  }

  /** No two processes have the same pid at the same time. */
  predicate UniquePids(p: Processes) {
    forall a, b | a in p && b in p && p[a].pid == p[b].pid :: a == b
  }

  /** Following parents from any process leads to a child of the supervisor. */
  ghost function Ancestor(p: Processes, b: int): (a: int)
    requires Rooted(p) && b in p
    ensures a in p && p[a].parent == Supervisor
  {
    if p[b].parent.Supervisor? then b else Ancestor(p, p[b].parent.birth)
  }

  /** ECHILD: a supervisor without children has no descendants either, zombies included. */
  lemma NoChildrenNoJob(p: Processes)
    requires Rooted(p)
    ensures p == map[] <==> forall b | b in p :: p[b].parent != Supervisor
  {
    forall b | b in p
      ensures exists a :: a in p && p[a].parent == Supervisor
    {
      assert p[Ancestor(p, b)].parent == Supervisor;
    }
  }

  /** The status the supervisor reports after collecting these children. */
  function Reported(reaps: seq<Reap>, root: int): int {
    if reaps == [] then 255
    else
      var last := reaps[|reaps| - 1];
      if last.pid == root then last.status.Status() else Reported(reaps[..|reaps| - 1], root)
  }

  predicate Collected(reaps: seq<Reap>, root: int, pid: int) {
    exists i | 0 <= i < |reaps| :: reaps[i].birth == root && reaps[i].pid == pid
  }

  lemma OneMore(reaps: seq<Reap>, r: Reap, root: int, pid: int)
    ensures Reported(reaps + [r], pid) == if r.pid == pid then r.status.Status() else Reported(reaps, pid)
    ensures Collected(reaps + [r], root, pid)
            <==> Collected(reaps, root, pid) || (r.birth == root && r.pid == pid)
  {
    var more := reaps + [r];
    assert more[..|reaps|] == reaps && more[|reaps|] == r;
    if Collected(reaps, root, pid) {
      var i :| 0 <= i < |reaps| && reaps[i].birth == root && reaps[i].pid == pid;
      assert more[i] == reaps[i];
    }
  }

  /** The last child collected under the pid. */
  function Decisive(reaps: seq<Reap>, pid: int): (r: Option<Reap>)
    ensures r.Some? ==> r.value in reaps && r.value.pid == pid
    ensures Reported(reaps, pid) == if r.Some? then r.value.status.Status() else 255
  {
    if reaps == [] then None
    else
      var n := |reaps| - 1;
      if reaps[n].pid == pid then Some(reaps[n]) else Decisive(reaps[..n], pid)
  }

  /** It is at or after every child collected under the pid. */
  lemma {:induction false} LastUnderPid(reaps: seq<Reap>, k: nat, pid: int) returns (i: nat)
    requires k < |reaps| && reaps[k].pid == pid
    ensures k <= i < |reaps| && reaps[i].pid == pid && Decisive(reaps, pid) == Some(reaps[i])
    ensures forall m | i < m < |reaps| :: reaps[m].pid != pid
  {
    i := |reaps| - 1;
    if reaps[i].pid != pid {
      i := LastUnderPid(reaps[..i], k, pid);
    }
  }

  /** What the processes of the job may do, one step at a time. */
  datatype Event =
    | Fork(parent: int, pid: int)
    | Exit(birth: int, status: WaitStatus, heir: Parent)
    | Collect(birth: int)

  datatype Jobs = Jobs(processes: Processes, births: int)
  {
    predicate Valid() {
      && Rooted(processes) && UniquePids(processes)
      && 0 <= births
      && forall b | b in processes :: 0 <= b < births
    }

    predicate Possible(e: Event) {
      match e
      case Fork(parent, pid) =>
        && parent in processes && processes[parent].exit.Running?
        && forall b | b in processes :: processes[b].pid != pid
      case Exit(birth, _, heir) =>
        // Orphans go to the supervisor or to a running subreaper nearer to them.
        && birth in processes && processes[birth].exit.Running?
        && (heir.Member? ==>
              heir.birth < birth && heir.birth in processes && processes[heir.birth].exit.Running?)
      case Collect(birth) =>
        birth in processes && processes[birth].exit.Zombie? && processes[birth].parent.Member?
    }

    function Step(e: Event): Jobs {
      if !Possible(e) then this else
      match e
      case Fork(parent, pid) =>
        Jobs(processes[births := Process(pid, Member(parent), Running)], births + 1)
      case Exit(birth, status, heir) =>
        Jobs(map b | b in processes ::
               if b == birth then processes[b].(exit := Zombie(status))
               else if processes[b].parent == Member(birth) then processes[b].(parent := heir)
               else processes[b],
             births)
      case Collect(birth) => Jobs(processes - {birth}, births)
    }

    function Run(schedule: seq<Event>): Jobs
      decreases |schedule|
    {
      if schedule == [] then this else Step(schedule[0]).Run(schedule[1..])
    }

    /** A child of the supervisor stays its child, under the same pid, until it is reaped. A process
        that is gone never comes back. */
    ghost predicate KeepsChildren(later: Jobs) {
      && births <= later.births
      && (forall b | 0 <= b < births && b !in processes :: b !in later.processes)
      && (forall b | b in processes && processes[b].parent.Supervisor? ::
            && b in later.processes && later.processes[b].parent.Supervisor?
            && later.processes[b].pid == processes[b].pid)
      && (processes == map[] ==> later.processes == map[])
    }
  }

  lemma StepKeepsPids(j: Jobs, e: Event)
    requires UniquePids(j.processes)
    ensures UniquePids(j.Step(e).processes)
  {
  }

  lemma StepKeepsRoots(j: Jobs, e: Event)
    requires Rooted(j.processes) && forall b | b in j.processes :: 0 <= b < j.births
    ensures Rooted(j.Step(e).processes)
  {
  }

  lemma StepKeeps(j: Jobs, e: Event)
    requires j.Valid()
    ensures j.Step(e).Valid() && j.KeepsChildren(j.Step(e))
  {
    hide UniquePids, Rooted;
    StepKeepsPids(j, e);
    StepKeepsRoots(j, e);
  }

  /** Whatever the job does, its processes stay rooted in the supervisor. */
  lemma {:induction false} RunKeeps(j: Jobs, schedule: seq<Event>)
    requires j.Valid()
    ensures j.Run(schedule).Valid() && j.KeepsChildren(j.Run(schedule))
    decreases |schedule|
  {
    if schedule != [] {
      StepKeeps(j, schedule[0]);
      RunKeeps(j.Step(schedule[0]), schedule[1..]);
    }
  }

  datatype Waited = Stopped(status: int) | Failed | Unfinished

  /** One poll of the children: what the job did since the last one, which dead child the kernel hands
      out if it has the choice, and what else happens around it. */
  datatype Poll = Poll(schedule: seq<Event>, pick: int, waitFails: bool, cancelled: bool,
                       overdue: bool, killFails: bool)

  /** The supervisor between two polls. `again` tells that it slept since the last one. */
  datatype Watched = Watched(jobs: Jobs, reaps: seq<Reap>, status: int, stopping: bool, again: bool)

  predicate IsDeadChild(p: Processes, b: int) {
    b in p && p[b].parent.Supervisor? && p[b].exit.Zombie?
  }

  predicate HasChildren(p: Processes) {
    exists b | b in p :: p[b].parent.Supervisor?
  }

  function FirstDeadChild(j: Jobs, from: int): (b: Option<int>)
    ensures b.Some? ==> IsDeadChild(j.processes, b.value)
    ensures b.None? ==> forall k | from <= k < j.births :: !IsDeadChild(j.processes, k)
    decreases j.births - from
  {
    if from >= j.births then None
    else if IsDeadChild(j.processes, from) then Some(from)
    else FirstDeadChild(j, from + 1)
  }

  function Reapable(j: Jobs, pick: int): (r: Option<Reap>)
    ensures r.Some? ==>
              && IsDeadChild(j.processes, r.value.birth)
              && j.processes[r.value.birth] == Process(r.value.pid, Supervisor, Zombie(r.value.status))
  {
    var b := if IsDeadChild(j.processes, pick) then Some(pick) else FirstDeadChild(j, 0);
    if b.None? then None
    else Some(Reap(b.value, j.processes[b.value].pid, j.processes[b.value].exit.status))
  }

  /** What the supervisor does over these polls. */
  function Watch(w: Watched, pid: int, polls: seq<Poll>): (Waited, Watched)
    decreases |polls|
  {
    if polls == [] then (Unfinished, w)
    else if w.again && w.stopping && (polls[0].overdue || polls[0].killFails) then (Failed, w)
    else
      var jobs := w.jobs.Run(polls[0].schedule);
      if polls[0].waitFails then (Failed, w.(jobs := jobs))
      else if !HasChildren(jobs.processes) then (Stopped(w.status), w.(jobs := jobs))
      else Watch(AfterPoll(w, pid, jobs, polls[0]), pid, polls[1..])
  }

  lemma WatchStep(w: Watched, pid: int, polls: seq<Poll>)
    requires polls != []
    ensures var jobs := w.jobs.Run(polls[0].schedule);
            Watch(w, pid, polls) ==
              if w.again && w.stopping && (polls[0].overdue || polls[0].killFails) then (Failed, w)
              else if polls[0].waitFails then (Failed, w.(jobs := jobs))
              else if !HasChildren(jobs.processes) then (Stopped(w.status), w.(jobs := jobs))
              else Watch(AfterPoll(w, pid, jobs, polls[0]), pid, polls[1..])
  {
  }

  lemma WatchEnd(w: Watched, pid: int)
    ensures Watch(w, pid, []) == (Unfinished, w)
  {
  }

  function AfterPoll(w: Watched, pid: int, jobs: Jobs, poll: Poll): Watched {
    match Reapable(jobs, poll.pick)
    case None => Watched(jobs, w.reaps, w.status, w.stopping || poll.cancelled, true)
    case Some(r) =>
      Watched(jobs.(processes := jobs.processes - {r.birth}), w.reaps + [r],
              if r.pid == pid then r.status.Status() else w.status, w.stopping || r.pid == pid, false)
  }

  /** The status so far, and where the root is: still a child, or collected. */
  ghost predicate Tracked(w: Watched, root: int, pid: int) {
    && w.jobs.Valid() && w.status == Reported(w.reaps, pid)
    && (Collected(w.reaps, root, pid)
        || (root in w.jobs.processes && w.jobs.processes[root].parent.Supervisor?
            && w.jobs.processes[root].pid == pid))
  }

  lemma PollKeepsTrack(w: Watched, root: int, pid: int, poll: Poll)
    requires Tracked(w, root, pid)
    ensures var jobs := w.jobs.Run(poll.schedule);
            && Tracked(w.(jobs := jobs), root, pid) && Tracked(AfterPoll(w, pid, jobs, poll), root, pid)
  {
    hide Jobs.Run, Reported, Collected;
    RunKeeps(w.jobs, poll.schedule);
    var jobs := w.jobs.Run(poll.schedule);
    if Reapable(jobs, poll.pick).Some? {
      OneMore(w.reaps, Reapable(jobs, poll.pick).value, root, pid);
    }
  }

  /** Whenever the supervisor stops without an error the whole process forest is gone, the root was
      collected, and the status is that of the last child collected under its pid. */
  lemma {:induction false} StopsWithEmptyForest(w: Watched, root: int, pid: int, polls: seq<Poll>)
    requires Tracked(w, root, pid)
    ensures var (waited, end) := Watch(w, pid, polls);
            end.jobs.Valid() && (waited.Stopped? ==>
              end.jobs.processes == map[] && waited.status == Reported(end.reaps, pid) && Collected(end.reaps, root, pid))
    decreases |polls|
  {
    if polls != [] {
      PollKeepsTrack(w, root, pid, polls[0]);
      var jobs := w.jobs.Run(polls[0].schedule);
      NoChildrenNoJob(jobs.processes);
      StopsWithEmptyForest(AfterPoll(w, pid, jobs, polls[0]), root, pid, polls[1..]);
    }
  }

  /** No process of the job is ever born under this pid. */
  predicate NoReuse(polls: seq<Poll>, pid: int) {
    forall i | 0 <= i < |polls| :: NotForked(polls[i].schedule, pid)
  }

  predicate NotForked(schedule: seq<Event>, pid: int) {
    forall e | e in schedule && e.Fork? :: e.pid != pid
  }

  /** The pid belongs to the root alone, and the root is dead or collected only with `status`. */
  ghost predicate OnlyRoot(w: Watched, root: int, pid: int, status: set<WaitStatus>) {
    && OnlyRootIn(w.jobs, root, pid, status)
    && forall r | r in w.reaps && r.pid == pid :: r.birth == root && r.status in status
  }

  ghost predicate OnlyRootIn(j: Jobs, root: int, pid: int, status: set<WaitStatus>) {
    && root < j.births
    && (forall b | b in j.processes && j.processes[b].pid == pid :: b == root)
    && (root in j.processes && j.processes[root].exit.Zombie? ==> j.processes[root].exit.status in status)
  }

  lemma {:induction false} RunKeepsRoot(j: Jobs, schedule: seq<Event>, root: int, pid: int, status: set<WaitStatus>)
    requires j.Valid() && OnlyRootIn(j, root, pid, status) && NotForked(schedule, pid)
    requires forall e | e in schedule && e.Exit? && e.birth == root :: e.status in status
    ensures OnlyRootIn(j.Run(schedule), root, pid, status)
    decreases |schedule|
  {
    hide UniquePids, Rooted;
    if schedule != [] {
      assert schedule[0] in schedule && forall e | e in schedule[1..] :: e in schedule;
      StepKeeps(j, schedule[0]);
      RunKeepsRoot(j.Step(schedule[0]), schedule[1..], root, pid, status);
    }
  }

  /** Without reuse of the root's pid the reported status is one the root exited with. */
  lemma {:induction false} StatusIsTheRoots(w: Watched, root: int, pid: int, polls: seq<Poll>, status: set<WaitStatus>)
    requires Tracked(w, root, pid) && OnlyRoot(w, root, pid, status) && NoReuse(polls, pid)
    requires forall i, e | 0 <= i < |polls| && e in polls[i].schedule && e.Exit? && e.birth == root :: e.status in status
    ensures Watch(w, pid, polls).0.Stopped? ==> exists st | st in status :: Watch(w, pid, polls).0.status == st.Status()
    decreases |polls|
  {
    if polls != [] {
      var jobs := w.jobs.Run(polls[0].schedule);
      PollKeepsTrack(w, root, pid, polls[0]);
      RunKeepsRoot(w.jobs, polls[0].schedule, root, pid, status);
      if !HasChildren(jobs.processes) {
        NoChildrenNoJob(jobs.processes);
        var i :| 0 <= i < |w.reaps| && w.reaps[i].birth == root && w.reaps[i].pid == pid;
        var last := LastUnderPid(w.reaps, i, pid);
      } else {
        var next := AfterPoll(w, pid, jobs, polls[0]);
        assert OnlyRoot(next, root, pid, status);
        StatusIsTheRoots(next, root, pid, polls[1..], status);
      }
    }
  }

  function Started(root: nat, pid: int): Watched {
    Watched(Alone(root, pid), [], 255, false, true)
  }

  /** A job whose root exits with one status: unless the root's pid is used again, that is the status
      the supervisor reports. */
  lemma RootStatusIsReported(root: nat, pid: int, polls: seq<Poll>, status: WaitStatus)
    requires NoReuse(polls, pid)
    requires forall i, e | 0 <= i < |polls| && e in polls[i].schedule && e.Exit? && e.birth == root :: e.status == status
    ensures var waited := Watch(Started(root, pid), pid, polls).0;
            waited.Stopped? ==> waited.status == status.Status()
  {
    StatusIsTheRoots(Started(root, pid), root, pid, polls, {status});
  }

  /** Everyone is collected once, and under the root's pid nobody before the root. */
  ghost predicate InOrder(w: Watched, root: int, pid: int) {
    && w.jobs.Valid()
    && (forall r | r in w.reaps :: 0 <= r.birth < w.jobs.births && r.birth !in w.jobs.processes)
    && CollectedOnce(w.reaps)
    && (root in w.jobs.processes ==> w.jobs.processes[root].pid == pid && forall r | r in w.reaps :: r.pid != pid)
    && (root !in w.jobs.processes ==> RootFirst(w.reaps, root, pid))
  }

  predicate CollectedOnce(reaps: seq<Reap>) {
    forall i, k | 0 <= i < k < |reaps| :: reaps[i].birth != reaps[k].birth
  }

  ghost predicate RootFirst(reaps: seq<Reap>, root: int, pid: int) {
    exists f | 0 <= f < |reaps| ::
      reaps[f].birth == root && reaps[f].pid == pid && forall i | 0 <= i < f :: reaps[i].pid != pid
  }

  lemma CollectsInOrder(reaps: seq<Reap>, r: Reap, root: int, pid: int)
    requires CollectedOnce(reaps) && forall q | q in reaps :: q.birth != r.birth
    requires RootFirst(reaps, root, pid)
             || (r.birth == root && r.pid == pid && forall q | q in reaps :: q.pid != pid)
    ensures CollectedOnce(reaps + [r]) && RootFirst(reaps + [r], root, pid)
  {
    var more := reaps + [r];
    var f := |reaps|;
    if RootFirst(reaps, root, pid) {
      f :| 0 <= f < |reaps| && reaps[f].birth == root && reaps[f].pid == pid
           && forall i | 0 <= i < f :: reaps[i].pid != pid;
    }
    assert more[f].birth == root && more[f].pid == pid && forall i | 0 <= i < f :: more[i].pid != pid;
  }

  lemma PollKeepsOrder(w: Watched, root: int, pid: int, poll: Poll)
    requires Tracked(w, root, pid) && InOrder(w, root, pid)
    ensures InOrder(AfterPoll(w, pid, w.jobs.Run(poll.schedule), poll), root, pid)
  {
    RunKeeps(w.jobs, poll.schedule);
    var jobs := w.jobs.Run(poll.schedule);
    var reaped := Reapable(jobs, poll.pick);
    if reaped.Some? && (reaped.value.birth == root || root !in w.jobs.processes) {
      CollectsInOrder(w.reaps, reaped.value, root, pid);
    }
  }

  lemma {:induction false} StopsInOrder(w: Watched, root: int, pid: int, polls: seq<Poll>)
    requires Tracked(w, root, pid) && InOrder(w, root, pid)
    ensures var (waited, end) := Watch(w, pid, polls);
            waited.Stopped? ==> CollectedOnce(end.reaps) && RootFirst(end.reaps, root, pid)
    decreases |polls|
  {
    if polls != [] {
      var jobs := w.jobs.Run(polls[0].schedule);
      PollKeepsTrack(w, root, pid, polls[0]);
      PollKeepsOrder(w, root, pid, polls[0]);
      NoChildrenNoJob(jobs.processes);
      StopsInOrder(AfterPoll(w, pid, jobs, polls[0]), root, pid, polls[1..]);
    }
  }

  lemma StartsInOrder(root: nat, pid: int)
    ensures Tracked(Started(root, pid), root, pid) && InOrder(Started(root, pid), root, pid)
  {
  }

  /** Whatever a job does, the status reported when the supervisor stops is the root's own exactly if
      nobody else was collected under the root's pid. */
  lemma StatusIsTheRootsOwn(root: nat, pid: int, polls: seq<Poll>)
    ensures var (waited, end) := Watch(Started(root, pid), pid, polls);
            waited.Stopped? ==>
              var decisive := Decisive(end.reaps, pid);
              && decisive.Some? && waited.status == decisive.value.status.Status()
              && (decisive.value.birth == root <==>
                    forall r | r in end.reaps && r.pid == pid :: r.birth == root)
  {
    hide Watch, Tracked, InOrder;
    var (waited, end) := Watch(Started(root, pid), pid, polls);
    StartsInOrder(root, pid);
    StopsWithEmptyForest(Started(root, pid), root, pid, polls);
    StopsInOrder(Started(root, pid), root, pid, polls);
    if waited.Stopped? {
      var reaps := end.reaps;
      var f :| 0 <= f < |reaps| && reaps[f].birth == root && reaps[f].pid == pid
               && forall i | 0 <= i < f :: reaps[i].pid != pid;
      var last := LastUnderPid(reaps, f, pid);
      assert reaps[f] in reaps && reaps[last] in reaps;
    }
  }

  /** The root's pid is free once the root is collected. A descendant may be born under it, and then
      the supervisor reports that descendant's status: here the root exits with 0, and 137 is
      reported. */
  lemma PidReuseHidesStatus()
    ensures
      var exit := Exited(0);
      var polls := [
        Collecting([Fork(0, 8), Exit(0, exit, Supervisor)], 0), Collecting([Fork(1, 7), Exit(1, exit, Supervisor)], 1),
        Collecting([Exit(2, Signaled(9), Supervisor)], 2), Collecting([], 0)];
      Watch(Started(0, 7), 7, polls).0 == Stopped(137)
  {
    hide Watch, Jobs.Run, Jobs.Step;
    var exit := Exited(0);
    var w0 := Started(0, 7);
    var first, fourth := Collecting([Fork(0, 8), Exit(0, exit, Supervisor)], 0), Collecting([], 0);
    var second := Collecting([Fork(1, 7), Exit(1, exit, Supervisor)], 1);
    var third := Collecting([Exit(2, Signaled(9), Supervisor)], 2);
    // The root forks and exits; its child goes to the supervisor.
    var j1 := Jobs(map[0 := Process(7, Supervisor, Zombie(exit)), 1 := Process(8, Supervisor, Running)], 2);
    ForkAndExit(0, 7, 8, exit);
    CollectsOne(w0, 7, first, [second, third, fourth], j1);
    var w1 := Watched(Alone(1, 8), w0.reaps + [Reap(0, 7, exit)], 0, true, false);
    assert j1.processes - {0} == w1.jobs.processes;
    // The child forks under the free pid and exits.
    var j2 := Jobs(map[1 := Process(8, Supervisor, Zombie(exit)), 2 := Process(7, Supervisor, Running)], 3);
    ForkAndExit(1, 8, 7, exit);
    CollectsOne(w1, 7, second, [third, fourth], j2);
    var w2 := Watched(Alone(2, 7), w1.reaps + [Reap(1, 8, exit)], 0, true, false);
    assert j2.processes - {1} == w2.jobs.processes;
    // The grandchild is killed.
    var j3 := Jobs(map[2 := Process(7, Supervisor, Zombie(Signaled(9)))], 3);
    ExitAlone(2, 7, Signaled(9));
    CollectsOne(w2, 7, third, [fourth], j3);
    var w3 := Watched(Jobs(map[], 3), w2.reaps + [Reap(2, 7, Signaled(9))], 137, true, false);
    assert j3.processes - {2} == w3.jobs.processes;
    NoEvents(w3.jobs);
    WatchStep(w3, 7, [fourth]);
    assert Watch(w3, 7, [fourth]).0 == Stopped(137);
    assert [third, fourth] == [third] + [fourth] && Watch(w2, 7, [third, fourth]).0 == Stopped(137);
    assert [second, third, fourth] == [second] + [third, fourth];
    assert Watch(w1, 7, [second, third, fourth]).0 == Stopped(137);
    assert [first, second, third, fourth] == [first] + [second, third, fourth];
  }

  /** A poll that collects the dead child it picks. */
  lemma CollectsOne(w: Watched, pid: int, poll: Poll, rest: seq<Poll>, jobs: Jobs)
    requires poll == Collecting(poll.schedule, poll.pick) && !(w.again && w.stopping)
    requires jobs == w.jobs.Run(poll.schedule) && IsDeadChild(jobs.processes, poll.pick)
    ensures var dead := jobs.processes[poll.pick];
            var r := Reap(poll.pick, dead.pid, dead.exit.status);
            Watch(w, pid, [poll] + rest) == Watch(
              Watched(jobs.(processes := jobs.processes - {poll.pick}), w.reaps + [r],
                      if r.pid == pid then r.status.Status() else w.status, w.stopping || r.pid == pid, false),
              pid, rest)
  {
    assert ([poll] + rest)[1..] == rest;
    WatchStep(w, pid, [poll] + rest);
  }

  function Collecting(schedule: seq<Event>, pick: int): Poll {
    Poll(schedule, pick, false, false, false, false)
  }

  lemma NoEvents(j: Jobs)
    ensures j.Run([]) == j
  {
  }

  function Alone(b: nat, pid: int): Jobs {
    Jobs(map[b := Process(pid, Supervisor, Running)], b + 1)
  }

  lemma ExitAlone(b: nat, pid: int, status: WaitStatus)
    ensures Alone(b, pid).Run([Exit(b, status, Supervisor)])
            == Jobs(map[b := Process(pid, Supervisor, Zombie(status))], b + 1)
  {
    OneEvent(Alone(b, pid), [Exit(b, status, Supervisor)]);
  }

  lemma ForkAndExit(b: nat, pid: int, child: int, status: WaitStatus)
    requires pid != child
    ensures Alone(b, pid).Run([Fork(b, child), Exit(b, status, Supervisor)])
            == Jobs(map[b := Process(pid, Supervisor, Zombie(status)), b + 1 := Process(child, Supervisor, Running)],
                    b + 2)
  {
    hide Jobs.Run;
    var schedule := [Fork(b, child), Exit(b, status, Supervisor)];
    var forked := Jobs(map[b := Process(pid, Supervisor, Running), b + 1 := Process(child, Member(b), Running)], b + 2);
    assert Alone(b, pid).Step(schedule[0]) == forked;
    RunUnfolds(Alone(b, pid), schedule);
    OneEvent(forked, schedule[1..]);
  }

  lemma RunUnfolds(j: Jobs, schedule: seq<Event>)
    requires schedule != []
    ensures j.Run(schedule) == j.Step(schedule[0]).Run(schedule[1..])
  {
  }

  lemma OneEvent(j: Jobs, schedule: seq<Event>)
    requires |schedule| == 1
    ensures j.Run(schedule) == j.Step(schedule[0])
  {
    assert schedule[1..] == [];
    NoEvents(j.Step(schedule[0]));
  }

  class Forest {
    var jobs: Jobs
    /** Every process the supervisor has collected, in order. */
    ghost var reaps: seq<Reap>

    ghost predicate Valid()
      reads this
    {
      jobs.Valid()
    }

    constructor ()
      ensures Valid() && jobs.processes == map[] && reaps == []
    {
      jobs, reaps := Jobs(map[], 0), [];
    }

    /** The service manager kills the whole control group before a restart. */
    method EndAll()
      modifies this
      ensures Valid() && jobs.processes == map[]
    {
      jobs, reaps := Jobs(map[], 0), [];
    }

    method Interfere(schedule: seq<Event>)
      requires Valid()
      modifies this`jobs
      ensures Valid() && jobs == old(jobs).Run(schedule) && old(jobs).KeepsChildren(jobs)
    {
      RunKeeps(jobs, schedule);
      jobs := jobs.Run(schedule);
    }

    /** Start the interpreter as a child of the supervisor. */
    method Spawn(pid: int) returns (root: nat)
      requires Valid() && jobs.processes == map[]
      modifies this
      ensures Valid() && root == old(jobs.births) && reaps == [] && jobs == Alone(root, pid)
    {
      root, reaps := jobs.births, [];
      jobs := Alone(root, pid);
    }

    /** `wait4(-1, WNOHANG)`: no child at all, no child to collect yet, or one collected. */
    method Wait(pick: int) returns (children: bool, reaped: Option<Reap>)
      requires Valid()
      modifies this
      ensures Valid() && children == HasChildren(old(jobs).processes)
      ensures reaped == if children then Reapable(old(jobs), pick) else None
      ensures if reaped.None? then jobs == old(jobs) && reaps == old(reaps)
              else jobs == old(jobs).(processes := old(jobs).processes - {reaped.value.birth})
                   && reaps == old(reaps) + [reaped.value]
    {
      children := exists b | b in jobs.processes :: jobs.processes[b].parent.Supervisor?;
      reaped := None;
      if children {
        reaped := Reapable(jobs, pick);
        if reaped.Some? {
          jobs := jobs.(processes := jobs.processes - {reaped.value.birth});
          reaps := reaps + [reaped.value];
        }
      }
    }

    ghost function Now(status: int, stopping: bool, again: bool): Watched
      reads this
    {
      Watched(jobs, reaps, status, stopping, again)
    }

    /** Collect children until none is left, observed for any finite number of polls. */
    method WaitHostChildren(root: nat, pid: int, polls: seq<Poll>) returns (waited: Waited)
      requires Valid() && reaps == [] && jobs == Alone(root, pid)
      modifies this
      ensures Valid()
      ensures waited == Watch(Started(root, pid), pid, polls).0
      ensures waited.Stopped? ==> reaps == Watch(Started(root, pid), pid, polls).1.reaps
      ensures waited.Stopped? ==>
                && jobs.processes == map[]
                && waited.status == Reported(reaps, pid)
                && Collected(reaps, root, pid)
    {
      hide Watch, Collected, Jobs.Run, UniquePids, Rooted;
      var status, stopping, turn := 255, false, 0;
      ghost var start := Started(root, pid);
      StopsWithEmptyForest(start, root, pid, polls);
      while turn < |polls|
        invariant turn <= |polls| && Valid()
        invariant Watch(start, pid, polls) == Watch(Now(status, stopping, true), pid, polls[turn..])
      {
        if stopping {
          if polls[turn].overdue || polls[turn].killFails {
            WatchStep(Now(status, stopping, true), pid, polls[turn..]);
            return Failed;
          }
        }
        ghost var again := true;
        while turn < |polls|
          invariant turn <= |polls| && Valid()
          invariant again ==> turn < |polls| && !(stopping && (polls[turn].overdue || polls[turn].killFails))
          invariant Watch(start, pid, polls) == Watch(Now(status, stopping, again), pid, polls[turn..])
        {
          ghost var w := Now(status, stopping, again);
          WatchStep(w, pid, polls[turn..]);
          assert polls[turn..][1..] == polls[turn + 1..];
          Interfere(polls[turn].schedule);
          ghost var after := jobs;
          if polls[turn].waitFails {
            return Failed;
          }
          var children, reaped := Wait(polls[turn].pick);
          if !children {
            return Stopped(status);
          }
          again, turn := false, turn + 1;
          if reaped.None? {
            stopping := stopping || polls[turn - 1].cancelled;
            assert Now(status, stopping, true) == AfterPoll(w, pid, after, polls[turn - 1]);
            break;
          }
          if reaped.value.pid == pid {
            status, stopping := reaped.value.status.Status(), true;
          }
          assert Now(status, stopping, again) == AfterPoll(w, pid, after, polls[turn - 1]);
        }
        if turn == |polls| {
          assert polls[turn..] == [];
          WatchEnd(Now(status, stopping, true), pid);
          WatchEnd(Now(status, stopping, false), pid);
          return Unfinished;
        }
      }
      assert polls[turn..] == [];
      WatchEnd(Now(status, stopping, true), pid);
      return Unfinished;
    }
  }
}
