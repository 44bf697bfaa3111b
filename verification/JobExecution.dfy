/** Attempts, retries and steps over the container executor and the host supervisor. */
module JobExecution {
  import opened Options
  import opened Errors
  import opened ContainerExecution
  import opened HostSupervision

  datatype Step = Step(container: bool, maxRetries: nat)

  /** Where a job's steps find their workspace: a staging directory, or volumes. */
  datatype Config = Config(staged: bool, volumes: Job)

  class Executor {
    const container: ContainerExecutor?
    /** The processes of staged host attempts. */
    const forest: Forest

    constructor (container: ContainerExecutor?, forest: Forest)
      ensures this.container == container && this.forest == forest
    {
      this.container, this.forest := container, forest;
    }

    ghost predicate Valid()
      reads this, container, if container == null then {} else {container.runtime}, forest
    {
      && forest.Valid()
      && (container != null ==> container.Valid())
    }

    predicate Idle()
      reads forest
    {
      forest.jobs.processes == map[]
    }

    /** The internal worker: start the interpreter, collect every descendant, report "stopped". */
    method Supervise() returns (reported: bool, status: int)
      requires forest.Valid() && Idle()
      modifies forest
      ensures forest.Valid()
      ensures reported ==> Idle()
    {
      var subreaper, cancelled, started: bool := *, *, *;
      if !subreaper { return false, 255; }
      if cancelled || !started { return true, 255; }
      var pid: int := *;
      var root := forest.Spawn(pid);
      var polls: seq<Poll> := *;
      var waited := forest.WaitHostChildren(root, pid, polls);
      if !waited.Stopped? { return false, 255; }
      var written: bool := *;
      return written, waited.status;
    }

    /** One attempt of a host step. A staged one starts only when no staged process is left. */
    method RunHostAttempt(staged: bool) returns (err: Error)
      requires forest.Valid()
      requires Idle()
      modifies forest
      ensures forest.Valid()
      ensures HostProcessCleanup in err ==> ContainerCleanup in err
      ensures HostProcessCleanup !in err ==> Idle()
    {
      var directory, prepared, located, launched: bool := *, *, *, *;
      if !directory { return {Other}; }
      if !prepared {
        err := {InterpreterUnavailable};
      } else if !located {
        err := {LogDelivery};
      } else if !launched {
        err := {Other};
      } else {
        var reported, status := true, 0;
        if staged {
          reported, status := Supervise();
        } else {
          status := *;
        }
        err := if status == 0 then NIL else {Other};
        if !reported {
          err := err + {HostProcessCleanup, ContainerCleanup};
        } else {
          var flushed: bool := *;
          if !flushed { err := {LogDelivery}; }
        }
      }
      var removed: bool := *;
      if !removed {
        err := err + {HostProcessCleanup, ContainerCleanup, Other};
      }
    }

    /** What an execution without the cleanup error leaves as it found it. */
    twostate predicate LeftClean()
      reads forest, container, if container == null then {} else {container.runtime}
    {
      && Idle()
      && (container != null ==>
            && container.cleanupErr == old(container.cleanupErr)
            && container.runtime.state.containers == old(container.runtime.state.containers)
            && container.runtime.state.volumes.Keys == old(container.runtime.state.volumes.Keys))
    }

    twostate predicate SameRuntime()
      reads if container == null then {} else {container, container.runtime}
    {
      container != null ==>
        && container.runtime.state == old(container.runtime.state)
        && container.cleanupErr == old(container.cleanupErr)
    }

    function Runtimes(): set<object> {
      if container == null then {} else {container, container.runtime}
    }

    method ExecuteAttempt(step: Step, config: Config, pinned: Option<nat>)
      returns (err: Error, image: Option<nat>, launched: Option<nat>)
      requires Valid() && Idle()
      modifies forest, Runtimes()
      ensures Valid()
      ensures container != null ==> container.stages == old(container.stages)
      ensures ContainerCleanup !in err ==> LeftClean()
      ensures HostProcessCleanup in err ==> ContainerCleanup in err
      ensures HostProcessCleanup !in err ==> Idle()
      ensures !step.container ==> SameRuntime()
      ensures pinned.Some? ==> image == pinned
      ensures launched.Some? ==> launched == image
    {
      image, launched := pinned, None;
      if !step.container {
        err := RunHostAttempt(config.staged);
        return;
      }
      if container == null {
        return {ContainerUnavailable}, image, launched;
      }
      err, image, launched := container.RunAttempt(config.volumes, pinned);
      if err != NIL {
        var logged: bool := *;
        if !logged { err := err + {LogDelivery}; }
      }
    }

    /** Attempts until one succeeds, an error forbids retrying, or the retries are used up. */
    method ExecuteAttempts(step: Step, config: Config)
      returns (err: Error, ghost images: seq<nat>, ghost outcomes: seq<Error>)
      requires Valid() && Idle()
      modifies forest, Runtimes()
      ensures Valid()
      ensures container != null ==> container.stages == old(container.stages)
      ensures ContainerCleanup !in err ==> LeftClean()
      ensures HostProcessCleanup in err ==> ContainerCleanup in err
      ensures HostProcessCleanup !in err ==> Idle()
      ensures !step.container ==> SameRuntime()
      // Every attempt runs the image the first one resolved.
      ensures |images| <= step.maxRetries + 1
      ensures forall i, j | 0 <= i < |images| && 0 <= j < |images| :: images[i] == images[j]
      // Only errors that permit it are retried, up to the limit; the step succeeds with its last attempt.
      ensures |outcomes| <= step.maxRetries + 1
      ensures forall i | 0 <= i < |outcomes| - 1 :: outcomes[i] != NIL && Retryable(outcomes[i])
      ensures err == NIL <==> outcomes != [] && outcomes[|outcomes| - 1] == NIL
    {
      images, err, outcomes := [], {Other}, [];
      var image: Option<nat> := None;
      for attempt := 0 to step.maxRetries + 1
        invariant Valid() && LeftClean()
        invariant container != null ==> container.stages == old(container.stages)
        invariant ContainerCleanup !in err && HostProcessCleanup !in err
        invariant !step.container ==> SameRuntime()
        invariant |images| <= attempt && |outcomes| == attempt
        invariant forall i | 0 <= i < |outcomes| :: outcomes[i] != NIL && Retryable(outcomes[i])
        invariant err != NIL
        invariant forall i | 0 <= i < |images| :: image == Some(images[i])
      {
        var cancelled, expired: bool := *, *;
        if cancelled {
          return {Cancelled}, images, outcomes;
        }
        if expired {
          return {Other}, images, outcomes;
        }
        var launched;
        err, image, launched := ExecuteAttempt(step, config, image);
        outcomes := outcomes + [err];
        if launched.Some? {
          images := images + [launched.value];
        }
        if err == NIL {
          return;
        }
        cancelled := *;
        var final := RetryError(err, cancelled);
        if final != NIL {
          err := final;
          return;
        }
        var logged: bool := *;
        if attempt < step.maxRetries && !logged {
          return {LogDelivery}, images, outcomes;
        }
      }
    }

    /** Steps in order, up to the first that fails. */
    method ExecuteSteps(steps: seq<Step>, config: Config) returns (err: Error, ghost succeeded: nat)
      requires Valid()
      requires Idle()
      modifies forest, Runtimes()
      ensures Valid()
      ensures container != null ==> container.stages == old(container.stages)
      ensures ContainerCleanup !in err ==> LeftClean()
      ensures HostProcessCleanup in err ==> ContainerCleanup in err
      ensures HostProcessCleanup !in err ==> Idle()
      ensures (forall i | 0 <= i < |steps| :: !steps[i].container) ==> SameRuntime()
      ensures succeeded <= |steps| && (err == NIL ==> succeeded == |steps|)
    {
      succeeded := 0;
      var permitted: bool := *;
      if !permitted {
        return {Other}, succeeded;
      }
      for i := 0 to |steps|
        invariant Valid() && LeftClean()
        invariant container != null ==> container.stages == old(container.stages)
        invariant (forall i | 0 <= i < |steps| :: !steps[i].container) ==> SameRuntime()
        invariant succeeded == i
      {
        err := Execute(steps[i], config);
        if err != NIL {
          return;
        }
        succeeded := succeeded + 1;
      }
      return NIL, succeeded;
    }

    method Execute(step: Step, config: Config) returns (err: Error)
      requires Valid() && Idle()
      modifies forest, Runtimes()
      ensures Valid()
      ensures container != null ==> container.stages == old(container.stages)
      ensures ContainerCleanup !in err ==> LeftClean()
      ensures HostProcessCleanup in err ==> ContainerCleanup in err
      ensures HostProcessCleanup !in err ==> Idle()
      ensures !step.container ==> SameRuntime()
    {
      var valid: bool := *;
      if !valid || (step.container && config.staged)
         || (!step.container && config.volumes != Job(None, None)) {
        return {InvalidStep};
      }
      ghost var images, outcomes;
      err, images, outcomes := ExecuteAttempts(step, config);
    }
  }

  /** An error that does not end the step by itself. */
  predicate Retryable(err: Error) {
    err !! {ContainerCleanup, LogDelivery, OutputLimit, InterpreterUnavailable, InvalidStep, ContainerUnavailable}
  }

  /** Which errors end a step at once. An unconfirmed cleanup always does, whatever else happened. */
  function RetryError(err: Error, cancelled: bool): (r: Error)
    ensures ContainerCleanup in err ==> r == err
    ensures HostProcessCleanup in r || ContainerCleanup in r ==> r == err
    ensures r == NIL <==> Retryable(err) && !cancelled
  {
    if ContainerCleanup in err || LogDelivery in err || OutputLimit in err then err
    else if cancelled then {Cancelled}
    else if InterpreterUnavailable in err || InvalidStep in err || ContainerUnavailable in err then err
    else NIL
  }
}
