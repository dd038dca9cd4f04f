/**
  The lifecycle controller handed to the caller: liveness, wait, signals and
  teardown of one kernel container.

  The container runtime is abstract. `Container` is what the runtime knows of
  the container; every call the controller makes is appended to a log, and the
  container's state is the effect of that log on the state it started in. A call
  on a container the runtime no longer knows fails with NotFound; `stop` leaves
  it exited, `remove` makes it unknown, and a `wait` that returns before its
  timeout means it has exited. How long a wait blocks, and whether it times out,
  is a parameter.
*/
module KernelManager {
  import opened Wrappers

  /** POSIX signal numbers. */
  const SIGINT: int := 2
  const SIGKILL: int := 9

  const RUNNING: string := "running"
  const EXITED: string := "exited"

  /** What the runtime reports for the container: whether it knows it, its
      status, and its address on the default bridge network ("" for none). */
  datatype Container = Container(found: bool, status: string, bridgeIp: string)

  datatype RuntimeError = NotFound

  /** The calls the controller makes. `Wait` records whether the container
      exited before the timeout. */
  datatype RuntimeCall =
    | Reload
    | Wait(timeout: nat, exitedInTime: bool)
    | Kill(signum: int)
    | Stop
    | Remove
    | ReleaseTmpdir

  /** The effect of one call on the container. */
  function Apply(c: Container, call: RuntimeCall): (c': Container)
    ensures c'.bridgeIp == c.bridgeIp
    ensures c'.found ==> c.found
    ensures c'.status != c.status ==> c.found && c'.status == EXITED
  {
    match call
    case Wait(_, exitedInTime) => if c.found && exitedInTime then c.(status := EXITED) else c
    case Stop => if c.found then c.(status := EXITED) else c
    case Remove => c.(found := false)
    case _ => c
  }

  /** The container after a log of calls. */
  function Replay(c: Container, log: seq<RuntimeCall>): Container
    decreases |log|
  {
    if log == [] then c else Apply(Replay(c, log[..|log| - 1]), log[|log| - 1])
  }

  /** A container the runtime has let go of never comes back. */
  lemma {:induction false} NeverResurrected(c: Container, log: seq<RuntimeCall>)
    requires !c.found
    ensures !Replay(c, log).found
    decreases |log|
  {
    if log != [] {
      NeverResurrected(c, log[..|log| - 1]);
    }
  }

  /** Once a Remove has been issued the container is gone for good, so every
      later liveness check is false and every later runtime call fails. */
  lemma {:induction false} RemoveIsFinal(c: Container, log: seq<RuntimeCall>, i: nat)
    requires i < |log| && log[i] == Remove
    ensures !Replay(c, log).found
    decreases |log|
  {
    if i < |log| - 1 {
      var init := log[..|log| - 1];
      assert init[i] == Remove;
      RemoveIsFinal(c, init, i);
    }
  }

  /** No call starts the container: a container that is running after a log
      was running before it, and the calls only ever move it to EXITED. */
  lemma {:induction false} NothingStartsTheContainer(c: Container, log: seq<RuntimeCall>)
    ensures Replay(c, log).status == c.status || Replay(c, log).status == EXITED
    ensures Replay(c, log).status == RUNNING ==> c.status == RUNNING
    ensures Replay(c, log).bridgeIp == c.bridgeIp
    decreases |log|
  {
    if log != [] {
      NothingStartsTheContainer(c, log[..|log| - 1]);
    }
  }

  class DockerKernelManager {
    /** The container, as the runtime knows it. */
    var container: Container
    /** The connection-file directory; `tmpdirPresent` is false once it is removed. */
    const tmpdir: string
    var tmpdirPresent: bool
    /** Every runtime call made through this controller, and the directory release, in order. */
    var log: seq<RuntimeCall>
    /** The container as it was when the controller was made. */
    ghost const started: Container

    ghost predicate Valid()
      reads this
    {
      && container == Replay(started, log)
      && (tmpdirPresent <==> ReleaseTmpdir !in log)
    }

    constructor (container: Container, tmpdir: string)
      ensures Valid()
      ensures this.container == container && this.tmpdir == tmpdir
      ensures started == container && tmpdirPresent && log == []
    {
      this.container := container;
      this.tmpdir := tmpdir;
      this.tmpdirPresent := true;
      this.log := [];
      this.started := container;
    }

    /** Makes one runtime call and records it. */
    method Issue(call: RuntimeCall)
      requires Valid()
      modifies this
      ensures Valid()
      ensures container == Apply(old(container), call)
      ensures tmpdirPresent == (old(tmpdirPresent) && call != ReleaseTmpdir)
      ensures log == old(log) + [call]
    {
      container := Apply(container, call);
      if call == ReleaseTmpdir {
        tmpdirPresent := false;
      }
      log := log + [call];
      assert log[..|log| - 1] == old(log);
    }

    /** is_alive: reload, and report "running"; a container the runtime does
        not find is not alive. */
    method IsAlive() returns (alive: bool)
      requires Valid()
      modifies this
      ensures Valid()
      ensures alive <==> old(container).found && old(container).status == RUNNING
      ensures container == old(container) && tmpdirPresent == old(tmpdirPresent)
      ensures log == old(log) + [Reload]
    {
      Issue(Reload);
      if !container.found {
        // docker.errors.NotFound
        return false;
      }
      alive := container.status == RUNNING;
    }

    /** wait: block until the container exits or the timeout passes; a timeout
        is swallowed and the result is the liveness check made afterwards. Only
        a missing container makes it fail. */
    method Wait(timeout: nat, exitedInTime: bool) returns (r: Result<bool, RuntimeError>)
      requires Valid()
      modifies this
      ensures Valid()
      ensures container == Apply(old(container), RuntimeCall.Wait(timeout, exitedInTime))
      ensures tmpdirPresent == old(tmpdirPresent)
      ensures !old(container).found ==> r == Err(NotFound) && log == old(log) + [RuntimeCall.Wait(timeout, exitedInTime)]
      ensures old(container).found ==> r.Ok? && log == old(log) + [RuntimeCall.Wait(timeout, exitedInTime), Reload]
      ensures r.Ok? ==> r.value == (container.found && container.status == RUNNING)
      ensures r.Ok? ==> r.value == (!exitedInTime && old(container).status == RUNNING)
    {
      var wasThere := container.found;
      Issue(RuntimeCall.Wait(timeout, exitedInTime));
      if !wasThere {
        return Err(NotFound);
      }
      // a Timeout from the runtime is passed over here
      var alive := IsAlive();
      r := Ok(alive);
    }

    /** signal: one kill call with the given signal number. */
    method Signal(signum: int) returns (r: Outcome<RuntimeError>)
      requires Valid()
      modifies this
      ensures Valid()
      ensures container == old(container) && tmpdirPresent == old(tmpdirPresent)
      ensures log == old(log) + [RuntimeCall.Kill(signum)]
      ensures r == if old(container).found then Pass else Fail(NotFound)
    {
      Issue(RuntimeCall.Kill(signum));
      r := if container.found then Pass else Fail(NotFound);
    }

    /** interrupt: signal(SIGINT). */
    method Interrupt() returns (r: Outcome<RuntimeError>)
      requires Valid()
      modifies this
      ensures Valid()
      ensures container == old(container) && tmpdirPresent == old(tmpdirPresent)
      ensures log == old(log) + [RuntimeCall.Kill(SIGINT)]
      ensures r == if old(container).found then Pass else Fail(NotFound)
    {
      r := Signal(SIGINT);
    }

    /** kill: signal(SIGKILL). */
    method Kill() returns (r: Outcome<RuntimeError>)
      requires Valid()
      modifies this
      ensures Valid()
      ensures container == old(container) && tmpdirPresent == old(tmpdirPresent)
      ensures log == old(log) + [RuntimeCall.Kill(SIGKILL)]
      ensures r == if old(container).found then Pass else Fail(NotFound)
    {
      r := Signal(SIGKILL);
    }

    /** cleanup: stop, remove, then release the connection-file directory. A
        failing call ends it there; there is no guard against a second cleanup,
        whose stop fails with NotFound. */
    method Cleanup() returns (r: Outcome<RuntimeError>)
      requires Valid()
      modifies this
      ensures Valid()
      ensures old(container).found ==>
        && r == Pass
        && log == old(log) + [Stop, Remove, ReleaseTmpdir]
        && container == old(container).(found := false, status := EXITED)
        && !tmpdirPresent
      ensures !old(container).found ==>
        && r == Fail(NotFound)
        && log == old(log) + [Stop]
        && container == old(container)
        && tmpdirPresent == old(tmpdirPresent)
    {
      if !container.found {
        Issue(Stop);
        return Fail(NotFound);
      }
      Issue(Stop);
      Issue(Remove);
      Issue(ReleaseTmpdir);
      r := Pass;
    }
  }

  /** A controller whose log holds a Remove manages a container the runtime no
      longer knows: nothing after a cleanup brings it back. */
  lemma RemovedStaysGone(m: DockerKernelManager)
    requires m.Valid() && Remove in m.log
    ensures !m.container.found
  {
    var i :| 0 <= i < |m.log| && m.log[i] == Remove;
    RemoveIsFinal(m.started, m.log, i);
  }

  /** After a successful cleanup the kernel is no longer alive, its storage is
      gone, and a second cleanup fails without touching anything. */
  method CleanupThenObserve(m: DockerKernelManager) returns (cleaned: Outcome<RuntimeError>, alive: bool, again: Outcome<RuntimeError>)
    requires m.Valid() && m.container.found
    modifies m
    ensures m.Valid()
    ensures cleaned == Pass && !alive && again == Fail(NotFound)
    ensures !m.tmpdirPresent && !m.container.found
    ensures m.log == old(m.log) + [Stop, Remove, ReleaseTmpdir, Reload, Stop]
  {
    cleaned := m.Cleanup();
    alive := m.IsAlive();
    again := m.Cleanup();
  }
}
