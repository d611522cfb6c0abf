/**
 * One supervised task (src/core/task.ts): a `running` flag guarded by
 * `start`, `stop` and `handleStop`, and the events the task emits, kept in
 * emission order in `trace`.
 *
 * Everything the operating system decides is an input: whether `spawn`
 * returns a child process or throws, the pid of that process, how the process
 * later reports its end (an `error` or an `exit` with its code), the platform
 * that selects the kill mechanism, and the result of the executable lookup.
 */
module Tasks {
  import opened Common
  import opened Ids
  import opened Problems

  /** What a listener receives with an `error` event: an Error object, or any other thrown value. */
  datatype ErrorValue = ErrorObject(stack: string, message: string) | Thrown(text: string)

  datatype Event =
    | Start
    | Error(error: ErrorValue)
    | Exit(code: Option<int>)
    | Stop
    | Stdout(data: string)
    | Stderr(data: string)
    | ProblemsUpdate

  /** The outcome of `spawn(path, args, {cwd})`: a child process, or the exception it threw. */
  datatype SpawnOutcome = Spawned(pid: nat) | SpawnFailed(error: ErrorValue)

  /** How a child process reports its end: its `error` event, or its `exit` event with the code. */
  datatype Termination = Errored(error: ErrorValue) | Exited(code: Option<int>)

  datatype Platform = Win32 | Posix

  /** The kill the task issues: a `taskkill` helper process on Windows, a signal elsewhere. */
  datatype KillRequest = TreeKill(command: string, args: seq<string>) | Signal(pid: nat)

  datatype ChildProcess = ChildProcess(pid: nat)

  datatype TaskOptions = TaskOptions(cwd: string, stdout: bool, stderr: bool)

  // ---------------------------------------------------------------------------
  // The events each operation emits

  /** The event `handleStop(error, code)` emits first. */
  function ReportEvent(error: Option<ErrorValue>, code: Option<int>): (e: Event)
    ensures e.Error? <==> error.Some?
    ensures e.Error? ==> e.error == error.value
    ensures error.None? ==> e == Exit(code)
  {
    if error.Some? then Error(error.value) else Exit(code)
  }

  function TerminationEvent(t: Termination): (e: Event)
    ensures e == (match t case Errored(err) => ReportEvent(Some(err), None) case Exited(c) => ReportEvent(None, c))
  {
    match t
    case Errored(err) => Error(err)
    case Exited(c) => Exit(c)
  }

  /** The events of one `handleStop` call: the report, then `stop` only if the task was running. */
  function HandleStopEvents(running: bool, report: Event): seq<Event> {
    [report] + (if running then [Stop] else [])
  }

  /** The events of `start()` on an idle task. */
  function StartEvents(spawn: SpawnOutcome): seq<Event> {
    match spawn
    case Spawned(_) => [Start]
    case SpawnFailed(err) => [Start] + HandleStopEvents(true, Error(err))
  }

  /** The child a task holds after `start()` on it idle: the one spawned, or, when the spawn
      threw, the one it held before. */
  function StartedProcess(spawn: SpawnOutcome, before: Option<ChildProcess>): Option<ChildProcess> {
    match spawn
    case Spawned(pid) => Some(ChildProcess(pid))
    case SpawnFailed(_) => before
  }

  /** The events of `stopWait()`: a running task reports how its process ended, then stops;
      an idle one emits nothing. */
  function StopWaitEvents(running: bool, termination: Termination): seq<Event> {
    if running then HandleStopEvents(true, TerminationEvent(termination)) else []
  }

  function KillRequestFor(platform: Platform, pid: nat): KillRequest {
    match platform
    case Win32 => TreeKill("taskkill", ["/f", "/t", "/pid", IdOf(pid)])
    case Posix => Signal(pid)
  }

  // ---------------------------------------------------------------------------
  // Running cycles: the start and stop events of a trace alternate

  predicate IsPhase(e: Event) {
    e.Start? || e.Stop?
  }

  /** The `start` and `stop` events of a trace, in order. */
  function Phases(trace: seq<Event>): (p: seq<Event>)
    ensures forall i :: 0 <= i < |p| ==> IsPhase(p[i])
  {
    if trace == [] then []
    else
      var last := trace[|trace| - 1];
      Phases(trace[..|trace| - 1]) + (if IsPhase(last) then [last] else [])
  }

  /** `start`, `stop`, `start`, `stop`, ...: no second `stop` within one running cycle and
      no second `start` before the cycle has stopped. */
  predicate Alternates(p: seq<Event>) {
    forall i :: 0 <= i < |p| ==> p[i] == if i % 2 == 0 then Start else Stop
  }

  /** A cycle is open: the last phase event is a `start`. */
  predicate InCycle(trace: seq<Event>) {
    var p := Phases(trace);
    |p| > 0 && p[|p| - 1] == Start
  }

  /**
   * One step of the `running` flag as the events go by: `Some(open)` says whether a cycle
   * is open, and `None` records a `start` while one was open or a `stop` while none was.
   */
  function Step(state: Option<bool>, e: Event): Option<bool> {
    match state
    case None => None
    case Some(open) =>
      if e.Start? then (if open then None else Some(true))
      else if e.Stop? then (if open then Some(false) else None)
      else state
  }

  /** The state after `trace`, starting from an idle task. */
  function CycleState(trace: seq<Event>): Option<bool> {
    if trace == [] then Some(false) else Step(CycleState(trace[..|trace| - 1]), trace[|trace| - 1])
  }

  /** Whether a task is running after the events `evs`, given whether it was before. */
  function RunningAfter(running: bool, evs: seq<Event>): bool {
    if evs == [] then running
    else
      var e := evs[|evs| - 1];
      if e.Start? then true else if e.Stop? then false else RunningAfter(running, evs[..|evs| - 1])
  }

  lemma PhasesSnoc(t: seq<Event>, e: Event)
    ensures Phases(t + [e]) == Phases(t) + (if IsPhase(e) then [e] else [])
  {
    assert (t + [e])[..|t|] == t;
  }

  lemma CycleStateSnoc(t: seq<Event>, e: Event)
    ensures CycleState(t + [e]) == Step(CycleState(t), e)
  {
    assert (t + [e])[..|t|] == t;
  }

  lemma RunningAfterSnoc(running: bool, evs: seq<Event>, e: Event)
    ensures RunningAfter(running, evs + [e])
         == if e.Start? then true else if e.Stop? then false else RunningAfter(running, evs)
  {
    assert (evs + [e])[..|evs|] == evs;
  }

  /**
   * The state machine agrees with the phase view: it never fails exactly when the phases
   * alternate, and then a cycle is open exactly when the last phase is a `start`.
   */
  lemma {:induction false} CycleStateMeans(t: seq<Event>)
    ensures CycleState(t).Some? <==> Alternates(Phases(t))
    ensures CycleState(t).Some? ==> (CycleState(t).value <==> InCycle(t))
    ensures CycleState(t).Some? ==> (CycleState(t).value <==> |Phases(t)| % 2 == 1)
  {
    if t != [] {
      var init := t[..|t| - 1];
      var e := t[|t| - 1];
      assert t == init + [e];
      CycleStateMeans(init);
      CycleStateSnoc(init, e);
      PhasesSnoc(init, e);
      var p := Phases(init);
      var q := Phases(t);
      if IsPhase(e) {
        assert q == p + [e];
        if Alternates(q) {
          assert Alternates(p) by {
            forall i | 0 <= i < |p| ensures p[i] == if i % 2 == 0 then Start else Stop {
              assert q[i] == p[i];
            }
          }
          assert e == q[|p|];
          assert CycleState(t).Some?;
        }
        if CycleState(t).Some? {
          var open := CycleState(init).value;
          assert open <==> |p| % 2 == 1;
          assert e == if |p| % 2 == 0 then Start else Stop;
          forall i | 0 <= i < |q| ensures q[i] == if i % 2 == 0 then Start else Stop {
            if i < |p| {
              assert q[i] == p[i];
            } else {
              assert q[i] == e;
            }
          }
        }
        if Alternates(p) && |p| > 0 {
          assert p[|p| - 1] == if (|p| - 1) % 2 == 0 then Start else Stop;
        }
      } else {
        assert q == p;
      }
    }
  }

  /** A trace that the state machine accepts, extended by `u`: the state after it follows
      from the state before `u` and the phase events of `u`. */
  lemma {:induction false} CycleStateConcat(t: seq<Event>, u: seq<Event>, open: bool)
    requires CycleState(t) == Some(open) && CycleState(t + u).Some?
    ensures CycleState(t + u) == Some(RunningAfter(open, u))
  {
    if u == [] {
      assert t + u == t;
    } else {
      var v := u[..|u| - 1];
      var e := u[|u| - 1];
      assert t + u == (t + v) + [e];
      assert u == v + [e];
      CycleStateSnoc(t + v, e);
      CycleStateConcat(t, v, open);
      RunningAfterSnoc(open, v, e);
    }
  }

  /** An event that is neither `start` nor `stop` leaves the state as it is. */
  lemma OtherEventKeepsCycles(trace: seq<Event>, e: Event)
    requires !IsPhase(e)
    ensures CycleState(trace + [e]) == CycleState(trace)
  {
    CycleStateSnoc(trace, e);
  }

  /** The events of `handleStop` close the open cycle, if any, and never open one. */
  lemma HandleStopKeepsCycles(trace: seq<Event>, running: bool, report: Event)
    requires CycleState(trace) == Some(running)
    requires !IsPhase(report)
    ensures CycleState(trace + HandleStopEvents(running, report)) == Some(false)
  {
    OtherEventKeepsCycles(trace, report);
    if running {
      CycleStateSnoc(trace + [report], Stop);
      assert trace + [report] + [Stop] == trace + HandleStopEvents(running, report);
    } else {
      assert trace + [report] == trace + HandleStopEvents(running, report);
    }
  }

  /** `start()` on an idle task opens a cycle, and closes it again when spawn throws. */
  lemma StartKeepsCycles(trace: seq<Event>, spawn: SpawnOutcome)
    requires CycleState(trace) == Some(false)
    ensures CycleState(trace + StartEvents(spawn)) == Some(spawn.Spawned?)
  {
    CycleStateSnoc(trace, Start);
    var started := trace + [Start];
    match spawn
    case Spawned(_) =>
    case SpawnFailed(err) =>
      HandleStopKeepsCycles(started, true, Error(err));
      assert started + HandleStopEvents(true, Error(err)) == trace + StartEvents(spawn);
  }

  // ---------------------------------------------------------------------------
  // The task

  class Task {
    const name: string
    const executable: string
    const args: seq<string>
    const options: TaskOptions
    /** The executable as resolved against the search path, or as given when that fails. */
    const path: string
    /** The shell-escaping library function, outside this model. */
    const shellEscape: seq<string> -> string

    var running: bool
    var process: Option<ChildProcess>
    /** The owner and problems of this task's matcher, when it has one. */
    var problemMatcher: Option<MatcherState>
    /** Every event emitted so far, in order. */
    var trace: seq<Event>

    ghost predicate Valid()
      reads this
    {
      && (running ==> process.Some?)
      && CycleState(trace) == Some(running)
    }

    /** In a valid task, `start` and `stop` alternate, and `running` says whether a cycle is open. */
    lemma Cycles()
      requires Valid()
      ensures Alternates(Phases(trace))
      ensures running <==> InCycle(trace)
    {
      CycleStateMeans(trace);
    }

    /** `which` is the outcome of looking `executable` up on the search path. */
    constructor (name: string, executable: string, args: seq<string>, options: TaskOptions,
                 which: Option<string>, shellEscape: seq<string> -> string,
                 problemMatcher: Option<MatcherState>)
      ensures Valid()
      ensures this.name == name && this.executable == executable && this.args == args
      ensures this.options == options && this.shellEscape == shellEscape
      ensures path == which.GetOr(executable)
      ensures !running && process == None && trace == []
      ensures this.problemMatcher == problemMatcher
    {
      this.name := name;
      this.executable := executable;
      this.args := args;
      this.options := options;
      this.shellEscape := shellEscape;
      path := which.GetOr(executable);
      running := false;
      process := None;
      this.problemMatcher := problemMatcher;
      trace := [];
    }

    /** The command line shown to viewers. */
    function Line(): string {
      shellEscape([executable] + args)
    }

    method Emit(e: Event)
      modifies this`trace
      ensures trace == old(trace) + [e]
    {
      trace := trace + [e];
    }

    /** Reports the end of the current run: `error` or `exit`, then `stop` if running. */
    method HandleStop(error: Option<ErrorValue>, code: Option<int>)
      modifies this`trace, this`running
      ensures trace == old(trace) + HandleStopEvents(old(running), ReportEvent(error, code))
      ensures !running
    {
      if error.Some? {
        Emit(Error(error.value));
      } else {
        Emit(Exit(code));
      }
      if running {
        Emit(Event.Stop);
        running := false;
      }
    }

    method Start(spawn: SpawnOutcome) returns (started: bool)
      requires Valid()
      modifies this`trace, this`running, this`process
      ensures Valid()
      ensures started == !old(running)
      ensures old(running) ==> running && trace == old(trace) && process == old(process)
      ensures !old(running) ==> trace == old(trace) + StartEvents(spawn)
      ensures !old(running) ==> running == spawn.Spawned?
      ensures !old(running) ==> process == StartedProcess(spawn, old(process))
    {
      if running {
        return false;
      }
      ghost var before := trace;
      StartKeepsCycles(before, spawn);
      Emit(Event.Start);
      running := true;
      match spawn {
        case SpawnFailed(err) =>
          HandleStop(Some(err), None);
          assert trace == before + StartEvents(spawn);
          return true;
        case Spawned(pid) =>
          process := Some(ChildProcess(pid));
      }
      return true;
    }

    /** Asks the operating system to kill the running process; the task stays running until
        the process reports its end. `kill` is the request issued, if any. */
    method Stop(platform: Platform) returns (stopping: bool, kill: Option<KillRequest>)
      requires Valid()
      ensures stopping == running
      ensures kill.Some? <==> running
      ensures running ==> kill == Some(KillRequestFor(platform, process.value.pid))
    {
      if !running {
        return false, None;
      }
      var pid := process.value.pid;
      match platform {
        case Win32 => kill := Some(TreeKill("taskkill", ["/f", "/t", "/pid", IdOf(pid)]));
        case Posix => kill := Some(Signal(pid));
      }
      stopping := true;
    }

    /** The child process's `error` listener. */
    method OnProcessError(error: ErrorValue)
      requires Valid()
      modifies this`trace, this`running
      ensures Valid()
      ensures trace == old(trace) + HandleStopEvents(old(running), Error(error))
      ensures !running
    {
      HandleStopKeepsCycles(trace, running, Error(error));
      HandleStop(Some(error), None);
    }

    /** The child process's `exit` listener. */
    method OnProcessExit(code: Option<int>)
      requires Valid()
      modifies this`trace, this`running
      ensures Valid()
      ensures trace == old(trace) + HandleStopEvents(old(running), Exit(code))
      ensures !running
    {
      HandleStopKeepsCycles(trace, running, Exit(code));
      HandleStop(None, code);
    }

    /** Stops the task and waits for its `stop` event; `termination` is how the killed
        process reports its end. On an idle task it returns at once. */
    method StopWait(platform: Platform, termination: Termination) returns (kill: Option<KillRequest>)
      requires Valid()
      modifies this`trace, this`running
      ensures Valid()
      ensures kill == if old(running) then Some(KillRequestFor(platform, old(process).value.pid)) else None
      ensures trace == old(trace) + StopWaitEvents(old(running), termination)
      ensures old(running) ==> trace[|trace| - 1] == Event.Stop
      ensures !running
    {
      var stopping;
      stopping, kill := Stop(platform);
      if stopping {
        match termination {
          case Errored(err) => OnProcessError(err);
          case Exited(code) => OnProcessExit(code);
        }
      } else {
        assert trace == old(trace) + [];
      }
    }

    /** `stopWait()` then `start()`: the old run's `stop` comes before the new `start`. */
    method Restart(platform: Platform, termination: Termination, spawn: SpawnOutcome)
      returns (kill: Option<KillRequest>)
      requires Valid()
      modifies this`trace, this`running, this`process
      ensures Valid()
      ensures kill == if old(running) then Some(KillRequestFor(platform, old(process).value.pid)) else None
      ensures trace == old(trace) + (StopWaitEvents(old(running), termination) + StartEvents(spawn))
      ensures running == spawn.Spawned?
      ensures process == StartedProcess(spawn, old(process))
    {
      kill := StopWait(platform, termination);
      var _ := Start(spawn);
    }

    /** The child process's output listeners re-emit each chunk. */
    method OnOutput(toStderr: bool, data: string)
      requires Valid()
      modifies this`trace
      ensures Valid()
      ensures trace == old(trace) + [if toStderr then Stderr(data) else Stdout(data)]
    {
      var e := if toStderr then Stderr(data) else Stdout(data);
      OtherEventKeepsCycles(trace, e);
      Emit(e);
    }

    /** The matcher reports a new problem set (the matcher itself is outside this model). */
    method UpdateProblems(problems: seq<Problem>)
      requires Valid() && problemMatcher.Some?
      modifies this`trace, this`problemMatcher
      ensures Valid()
      ensures problemMatcher == Some(MatcherState(old(problemMatcher).value.owner, problems))
      ensures trace == old(trace) + [ProblemsUpdate]
    {
      OtherEventKeepsCycles(trace, ProblemsUpdate);
      problemMatcher := Some(MatcherState(problemMatcher.value.owner, problems));
      Emit(ProblemsUpdate);
    }
  }
}
