/**
 * The task server (src/core/server.ts): the registry of created tasks keyed by
 * decimal id, the broadcasts it sends to the `biu` room, the problem report it
 * writes to standard output, and the snapshot a newly connected viewer receives.
 *
 * Sockets and HTTP are outside this model: the room is the sequence of
 * broadcasts sent so far, and a socket command is a call of the method that
 * handles it. The ANSI-to-HTML converter, the shell-escaping function and the
 * search-path lookup are uninterpreted functions the server is given.
 */
module TaskServer {
  import opened Common
  import opened Ids
  import opened Problems
  import opened Tasks
  import opened Room
  import opened Registry

  // ---------------------------------------------------------------------------
  // Configuration

  /** A matcher configuration; only the owner is read outside the matcher engine. */
  datatype MatcherConfig = MatcherConfig(owner: string)

  /** A task's `problemMatcher` option: the name of a shared matcher, or one written inline. */
  datatype MatcherRef = Named(name: string) | Inline(config: MatcherConfig)

  datatype TaskConfig = TaskConfig(
    executable: string,
    args: Option<seq<string>>,
    cwd: Option<string>,
    stdout: Option<bool>,
    stderr: Option<bool>,
    problemMatcher: Option<MatcherRef>)

  datatype TaskGroup = TaskGroup(name: string, tasks: seq<string>)

  /** `tasks` lists the entries of the configuration object in its key order. */
  datatype Config = Config(
    tasks: seq<(string, TaskConfig)>,
    groups: Option<seq<TaskGroup>>,
    problemMatchers: Option<map<string, MatcherConfig>>)

  function TaskNames(entries: seq<(string, TaskConfig)>): (names: seq<string>)
    ensures |names| == |entries|
    ensures forall i :: 0 <= i < |entries| ==> names[i] == entries[i].0
  {
    if entries == [] then [] else [entries[0].0] + TaskNames(entries[1..])
  }

  /** `config.tasks[name]`: the entry with that key, or nothing. */
  function LookupTask(entries: seq<(string, TaskConfig)>, name: string): Option<TaskConfig> {
    if entries == [] then None
    else if entries[0].0 == name then Some(entries[0].1)
    else LookupTask(entries[1..], name)
  }

  /** The lookup yields an entry with that key, and fails exactly when no entry has it. */
  lemma {:induction false} LookupTaskMeans(entries: seq<(string, TaskConfig)>, name: string)
    ensures LookupTask(entries, name).Some? ==> (name, LookupTask(entries, name).value) in entries
    ensures LookupTask(entries, name).None? <==> forall i :: 0 <= i < |entries| ==> entries[i].0 != name
  {
    if entries != [] && entries[0].0 != name {
      LookupTaskMeans(entries[1..], name);
      assert forall i :: 1 <= i < |entries| ==> entries[i] == entries[1..][i - 1];
    }
  }

  /** A string option names a shared matcher, which may be missing; an object is used as it is. */
  function ResolveMatcher(config: Config, option: Option<MatcherRef>): Option<MatcherConfig> {
    match option
    case None => None
    case Some(Inline(m)) => Some(m)
    case Some(Named(n)) =>
      var dict := config.problemMatchers.GetOr(map[]);
      if n in dict then Some(dict[n]) else None
  }

  /** `options.cwd || process.cwd()`: an absent or empty directory falls back to the server's. */
  function CwdFor(cwd: Option<string>, hostCwd: string): string {
    if cwd.Some? && cwd.value != "" then cwd.value else hostCwd
  }

  /** The names at the front of `names` that the configuration knows, up to the first unknown one. */
  function KnownPrefix(config: Config, names: seq<string>): (n: nat)
    ensures n <= |names|
  {
    if names == [] || LookupTask(config.tasks, names[0]).None? then 0
    else 1 + KnownPrefix(config, names[1..])
  }

  /** The known prefix is known throughout and, unless it is all of `names`, ends at an unknown name. */
  lemma {:induction false} KnownPrefixMeans(config: Config, names: seq<string>)
    ensures forall j :: 0 <= j < KnownPrefix(config, names) ==> LookupTask(config.tasks, names[j]).Some?
    ensures KnownPrefix(config, names) < |names| ==> LookupTask(config.tasks, names[KnownPrefix(config, names)]).None?
  {
    if names != [] && LookupTask(config.tasks, names[0]).Some? {
      KnownPrefixMeans(config, names[1..]);
      assert forall j :: 1 <= j < |names| ==> names[j] == names[1..][j - 1];
    }
  }

  /** Within the known prefix, position `i` ends it exactly when the name there is unknown. */
  lemma KnownPrefixStop(config: Config, names: seq<string>, i: nat)
    requires i <= KnownPrefix(config, names) && i < |names|
    ensures LookupTask(config.tasks, names[i]).None? <==> i == KnownPrefix(config, names)
  {
    KnownPrefixMeans(config, names);
  }

  /** The ids the next `n` tasks receive after `last`. */
  function NewIds(last: nat, n: nat): (ids: seq<string>)
    ensures |ids| == n
  {
    if n == 0 then [] else NewIds(last, n - 1) + [IdOf(last + n)]
  }

  /** One more new id is the text of the next number. */
  lemma NewIdsSnoc(last: nat, n: nat, next: nat, id: string)
    requires next == last + n + 1 && id == IdOf(next)
    ensures NewIds(last, n + 1) == NewIds(last, n) + [id]
  {
  }

  /** The `j`-th new id is the text of `last + 1 + j`. */
  lemma {:induction false} NewIdsAt(last: nat, n: nat)
    ensures forall j :: 0 <= j < n ==> NewIds(last, n)[j] == IdOf(last + 1 + j)
  {
    if n > 0 {
      NewIdsAt(last, n - 1);
    }
  }

  /** An id whose number lies outside `last + 1 .. last + n` is not among the new ones. */
  lemma {:induction false} NewIdsOutside(last: nat, n: nat, m: nat)
    requires m <= last || last + n < m
    ensures IdOf(m) !in NewIds(last, n)
  {
    if n > 0 {
      var k := last + n;
      NewIdsOutside(last, n - 1, m);
      IdOfInjective(m, k);
      NewIdsSnoc(last, n - 1, k, IdOf(k));
    }
  }

  /** The ids handed out are pairwise different. */
  lemma {:induction false} NewIdsDistinct(last: nat, n: nat)
    ensures Distinct(NewIds(last, n))
  {
    if n > 0 {
      NewIdsDistinct(last, n - 1);
      NewIdsOutside(last, n - 1, last + n);
      DistinctSnoc(NewIds(last, n - 1), IdOf(last + n));
    }
  }

  /** The ids handed out were not issued before, and are issued once the counter has moved on. */
  lemma NewIdsIssued(last: nat, n: nat)
    ensures forall j :: 0 <= j < n ==> NewIds(last, n)[j] !in Issued(last) && NewIds(last, n)[j] in Issued(last + n)
  {
    NewIdsAt(last, n);
    forall j | 0 <= j < n ensures NewIds(last, n)[j] !in Issued(last) && NewIds(last, n)[j] in Issued(last + n) {
      IssuedExactly(last, last + 1 + j);
      IssuedExactly(last + n, last + 1 + j);
    }
  }

  // ---------------------------------------------------------------------------
  // The broadcasts of `close` and `create`

  /** `close(id)` of a present task: its stop events, then `close`. */
  function CloseSegment(id: string, running: bool, termination: Termination,
                        toHtml: string -> string): seq<Broadcast> {
    Relay(id, StopWaitEvents(running, termination), toHtml) + [Closed(id)]
  }

  /** `closeAll()`, taken as closing the tasks one after another in map order. */
  function ClosingLog(ids: seq<string>, running: map<string, bool>, termination: string -> Termination,
                      toHtml: string -> string): seq<Broadcast>
    requires forall k :: k in ids ==> k in running
  {
    if ids == [] then []
    else
      CloseSegment(ids[0], running[ids[0]], termination(ids[0]), toHtml)
        + ClosingLog(ids[1..], running, termination, toHtml)
  }

  /** Closing announces no task, and ends with a `close` for each id. */
  lemma {:induction false} ClosingLogCreateFree(ids: seq<string>, running: map<string, bool>,
                                                termination: string -> Termination, toHtml: string -> string)
    requires forall k :: k in ids ==> k in running
    ensures var log := ClosingLog(ids, running, termination, toHtml);
      && (forall i :: 0 <= i < |log| ==> !log[i].Created?)
      && (forall k :: k in ids ==> Closed(k) in log)
  {
    if ids != [] {
      var seg := CloseSegment(ids[0], running[ids[0]], termination(ids[0]), toHtml);
      var rest := ClosingLog(ids[1..], running, termination, toHtml);
      ClosingLogCreateFree(ids[1..], running, termination, toHtml);
      assert seg[|seg| - 1] == Closed(ids[0]);
      assert forall i :: 0 <= i < |seg| - 1 ==> seg[i] == Relay(ids[0], StopWaitEvents(running[ids[0]], termination(ids[0])), toHtml)[i];
      forall k | k in ids ensures Closed(k) in seg + rest {
        if k != ids[0] {
          assert k in ids[1..];
        }
      }
    }
  }

  /** The log depends on `running` only at the ids being closed. */
  lemma {:induction false} ClosingLogAgree(ids: seq<string>, r1: map<string, bool>, r2: map<string, bool>,
                                           termination: string -> Termination, toHtml: string -> string)
    requires forall k :: k in ids ==> k in r1 && k in r2 && r1[k] == r2[k]
    ensures ClosingLog(ids, r1, termination, toHtml) == ClosingLog(ids, r2, termination, toHtml)
  {
    if ids != [] {
      ClosingLogAgree(ids[1..], r1, r2, termination, toHtml);
    }
  }

  /**
   * Closing `ids` is closing the first, then the rest; `after` is what `running` looks like
   * once the first is closed, and agrees with it on the rest.
   */
  lemma ClosingLogFirst(ids: seq<string>, running: map<string, bool>, after: map<string, bool>,
                        termination: string -> Termination, toHtml: string -> string)
    requires ids != [] && forall k :: k in ids ==> k in running
    requires forall k :: k in ids[1..] ==> k in after && after[k] == running[k]
    ensures ClosingLog(ids, running, termination, toHtml)
      == CloseSegment(ids[0], running[ids[0]], termination(ids[0]), toHtml)
        + ClosingLog(ids[1..], after, termination, toHtml)
  {
    ClosingLogAgree(ids[1..], after, running, termination, toHtml);
  }

  /** `kills` holds a kill request exactly for the tasks of `ids` that were running. */
  predicate KillsMatch(kills: seq<Option<KillRequest>>, ids: seq<string>, running: map<string, bool>)
    requires forall k :: k in ids ==> k in running
  {
    |kills| == |ids| && forall i :: 0 <= i < |kills| ==> (kills[i].Some? <==> running[ids[i]])
  }

  lemma KillsFirst(kill: Option<KillRequest>, rest: seq<Option<KillRequest>>, ids: seq<string>,
                   running: map<string, bool>, after: map<string, bool>)
    requires ids != [] && forall k :: k in ids ==> k in running
    requires forall k :: k in ids[1..] ==> k in after && after[k] == running[k]
    requires (kill.Some? <==> running[ids[0]]) && KillsMatch(rest, ids[1..], after)
    ensures KillsMatch([kill] + rest, ids, running)
  {
    var kills := [kill] + rest;
    forall i | 0 <= i < |kills| ensures kills[i].Some? <==> running[ids[i]] {
      if i > 0 {
        assert kills[i] == rest[i - 1] && ids[i] == ids[1..][i - 1];
      }
    }
  }

  /** In a batch of closes followed by creates, no `close` follows a `create`. */
  lemma {:induction false} ClosesBeforeCreates(closing: seq<Broadcast>, creation: seq<Broadcast>)
    requires forall i :: 0 <= i < |closing| ==> !closing[i].Created?
    requires forall i :: 0 <= i < |creation| ==> !creation[i].Closed?
    ensures forall p, q :: 0 <= p < q < |closing + creation| ==>
      ((closing + creation)[q].Closed? ==> !(closing + creation)[p].Created?)
  {
    var log := closing + creation;
    forall p, q | 0 <= p < q < |log| && log[q].Closed? ensures !log[p].Created? {
      assert q < |closing|;
      assert log[p] == closing[p];
    }
  }


  /** Each of `ids` names a task in `m` that has run `start()` once, with the spawn outcome of its id. */
  ghost predicate JustStarted(m: map<string, Task>, ids: seq<string>, spawn: string -> SpawnOutcome)
    reads m.Values
  {
    forall k :: k in ids ==>
      && k in m && m[k].trace == StartEvents(spawn(k)) && m[k].running == spawn(k).Spawned?
      && m[k].process == StartedProcess(spawn(k), None)
  }

  /** A task just started under a new id joins the started ones. */
  lemma JustStartedAdd(m: map<string, Task>, ids: seq<string>, spawn: string -> SpawnOutcome, id: string, t: Task)
    requires JustStarted(m, ids, spawn) && id !in m
    requires t.trace == StartEvents(spawn(id)) && t.running == spawn(id).Spawned?
    requires t.process == StartedProcess(spawn(id), None)
    ensures JustStarted(m[id := t], ids + [id], spawn)
  {
  }

  /** None of `ts` is running. */
  ghost predicate AllIdle(ts: set<Task>)
    reads ts
  {
    forall t :: t in ts ==> !t.running
  }

  /** The idle tasks of `ts` and one more idle task cover every task of `all` they contain. */
  lemma IdleUnion(ts: set<Task>, t: Task, all: set<Task>)
    requires AllIdle(ts) && !t.running && all <= ts + {t}
    ensures AllIdle(all)
  {
  }

  /** Every value of a map is a value after deleting `k`, or the value `k` had. */
  lemma ValuesRemove(m: map<string, Task>, k: string)
    requires k in m
    ensures m.Values <= (m - {k}).Values + {m[k]}
  {
    forall t | t in m.Values ensures t in (m - {k}).Values + {m[k]} {
      var j :| j in m && m[j] == t;
      if j != k {
        assert (m - {k})[j] == t;
      }
    }
  }

  /**
   * Each of `ids` names a task of `m` that went through `stopWait()` with that id's
   * termination, from the trace `traces` records for it and the running state `running` records.
   */
  ghost predicate StoppedFrom(m: map<string, Task>, ids: seq<string>, traces: map<string, seq<Event>>,
                              running: map<string, bool>, termination: string -> Termination)
    reads m.Values
  {
    forall k :: k in ids ==>
      && k in m && k in traces && k in running
      && m[k].trace == traces[k] + StopWaitEvents(running[k], termination(k))
  }

  /** The first of `ids` went through `stopWait()` too, and the rest are in a map `m0` extends. */
  lemma StoppedFromFirst(m0: map<string, Task>, m1: map<string, Task>, ids: seq<string>,
                         traces: map<string, seq<Event>>, running: map<string, bool>,
                         termination: string -> Termination,
                         traces0: map<string, seq<Event>>, running0: map<string, bool>)
    requires ids != [] && StoppedFrom(m1, ids[1..], traces, running, termination)
    requires ids[0] in m0 && ids[0] in traces0 && ids[0] in running0
    requires m0[ids[0]].trace == traces0[ids[0]] + StopWaitEvents(running0[ids[0]], termination(ids[0]))
    requires forall k :: k in m1 ==> k in m0 && m0[k] == m1[k]
    requires forall k :: k in ids[1..] ==> k in traces0 && traces0[k] == traces[k] && k in running0 && running0[k] == running[k]
    ensures StoppedFrom(m0, ids, traces0, running0, termination)
  {
    forall k | k in ids
      ensures k in m0 && k in traces0 && k in running0
      ensures m0[k].trace == traces0[k] + StopWaitEvents(running0[k], termination(k))
    {
      if k != ids[0] {
        assert k in ids[1..];
      }
    }
  }

  // ---------------------------------------------------------------------------
  // The server

  /** A stream the server writes text to. */
  class OutputStream {
    /** Everything written so far, one element per write. */
    var written: seq<string>

    constructor ()
      ensures written == []
    {
      written := [];
    }
  }

  class Server {
    const config: Config
    /** The server process's working directory, the default `cwd` of a task. */
    const hostCwd: string
    /** The search-path lookup of an executable, outside this model. */
    const which: string -> Option<string>
    /** The shell-escaping library function, outside this model. */
    const shellEscape: seq<string> -> string
    /** The ANSI-to-HTML converter, outside this model. */
    const toHtml: string -> string

    var lastTaskId: nat
    var taskMap: map<string, Task>
    /** The keys of `taskMap` in insertion order, the iteration order of a JavaScript Map. */
    var order: seq<string>
    /** Every broadcast sent to the `biu` room, in order. */
    var room: seq<Broadcast>
    /**
     * Every task whose `initializeTask` listeners were wired, under the id they relay
     * with. `close` deletes a task from `taskMap` but leaves its listeners in place.
     */
    var wired: map<string, Task>
    /** The server process's standard output. */
    const stdout: OutputStream

    /**
     * Ids are never reused, every task in the map keeps its listeners, every wired task
     * is valid, and only issued ids were announced.
     */
    ghost predicate Valid()
      reads this, wired.Values
    {
      && KeysOk(order, taskMap, lastTaskId)
      && Wired(taskMap, wired, lastTaskId)
      && TasksOk(wired)
      && CreatedIds(room) <= Issued(lastTaskId)
    }

    /** The task whose listeners relay with `id`, if any. */
    function Held(id: string): set<Task>
      reads this`wired
    {
      if id in wired then {wired[id]} else {}
    }

    /** The task held in the map under `id`, if any: what a command on `id` may change. */
    function Present(id: string): set<Task>
      reads this`taskMap
    {
      if id in taskMap then {taskMap[id]} else {}
    }

    ghost function RunningMap(): (m: map<string, bool>)
      reads this`taskMap, taskMap.Values
      ensures m.Keys == taskMap.Keys
    {
      map k | k in taskMap :: taskMap[k].running
    }

    ghost function Traces(): (m: map<string, seq<Event>>)
      reads this`taskMap, taskMap.Values
      ensures m.Keys == taskMap.Keys
    {
      map k | k in taskMap :: taskMap[k].trace
    }

    /** The matcher of each task, in map order. */
    function Matchers(ids: seq<string>): seq<Option<MatcherState>>
      reads this`taskMap, taskMap.Values
      requires forall k :: k in ids ==> k in taskMap
    {
      if ids == [] then [] else Matchers(ids[..|ids| - 1]) + [taskMap[ids[|ids| - 1]].problemMatcher]
    }

    /** The `line` a task created from `options` shows. */
    function LineFor(options: TaskConfig): string {
      shellEscape([options.executable] + options.args.GetOr([]))
    }

    /** The broadcasts of one pass of `create`'s loop: `create`, then the new task's start events. */
    function CreationSegment(id: string, name: string, options: TaskConfig, spawn: SpawnOutcome): seq<Broadcast> {
      [Created(id, name, LineFor(options))] + Relay(id, StartEvents(spawn), toHtml)
    }

    /**
     * The broadcasts of `create` for the first `n` of `names` after id `last`: the `j`-th
     * name gets the id `last + j`. Only ever applied to names the configuration knows; an
     * unknown one adds nothing.
     */
    function CreationLog(last: nat, names: seq<string>, n: nat, spawn: string -> SpawnOutcome): seq<Broadcast>
      requires n <= |names|
    {
      if n == 0 then []
      else
        var id := IdOf(last + n);
        CreationLog(last, names, n - 1, spawn)
          + match LookupTask(config.tasks, names[n - 1])
            case None => []
            case Some(options) => CreationSegment(id, names[n - 1], options, spawn(id))
    }

    /** A known name adds its creation segment to the broadcasts of the names before it. */
    lemma CreationLogNext(last: nat, names: seq<string>, i: nat, spawn: string -> SpawnOutcome, next: nat, id: string)
      requires i < |names| && LookupTask(config.tasks, names[i]).Some?
      requires next == last + i + 1 && id == IdOf(next)
      ensures CreationLog(last, names, i + 1, spawn)
        == CreationLog(last, names, i, spawn)
          + CreationSegment(id, names[i], LookupTask(config.tasks, names[i]).value, spawn(id))
    {
      var n := i + 1;
      assert IdOf(last + n) == id;
    }

    /** A creation segment announces its task first, and nothing after that creates or closes a task. */
    lemma CreationSegmentShape(id: string, name: string, options: TaskConfig, spawn: SpawnOutcome)
      ensures var seg := CreationSegment(id, name, options, spawn);
        && |seg| >= 1 && seg[0] == Created(id, name, LineFor(options))
        && forall i :: 1 <= i < |seg| ==> seg[i].id == id && !seg[i].Created? && !seg[i].Closed?
    {
      var seg := CreationSegment(id, name, options, spawn);
      forall i | 1 <= i < |seg| ensures seg[i].id == id && !seg[i].Created? && !seg[i].Closed? {
        assert seg[i] == Relay(id, StartEvents(spawn), toHtml)[i - 1];
      }
    }

    /** Creating tasks closes none. */
    lemma {:induction false} CreationLogCloseFree(last: nat, names: seq<string>, n: nat, spawn: string -> SpawnOutcome)
      requires n <= |names|
      ensures forall i :: 0 <= i < |CreationLog(last, names, n, spawn)| ==> !CreationLog(last, names, n, spawn)[i].Closed?
    {
      if n > 0 {
        var id := IdOf(last + n);
        CreationLogCloseFree(last, names, n - 1, spawn);
        var options := LookupTask(config.tasks, names[n - 1]);
        if options.Some? {
          CreationSegmentShape(id, names[n - 1], options.value, spawn(id));
        }
      }
    }

    /**
     * With `closeAll`, `create` broadcasts every `close` before its first `create`: the
     * viewers never see a task of the new batch closed by the old one's `closeAll()`.
     */
    lemma CreateClosesFirst(ids: seq<string>, running: map<string, bool>, termination: string -> Termination,
                            last: nat, names: seq<string>, n: nat, spawn: string -> SpawnOutcome)
      requires forall k :: k in ids ==> k in running
      requires n <= |names|
      ensures var log := ClosingLog(ids, running, termination, toHtml) + CreationLog(last, names, n, spawn);
        forall p, q :: 0 <= p < q < |log| && log[q].Closed? ==> !log[p].Created?
    {
      ClosingLogCreateFree(ids, running, termination, toHtml);
      CreationLogCloseFree(last, names, n, spawn);
      ClosesBeforeCreates(ClosingLog(ids, running, termination, toHtml), CreationLog(last, names, n, spawn));
    }

    constructor (config: Config, hostCwd: string, which: string -> Option<string>,
                 shellEscape: seq<string> -> string, toHtml: string -> string)
      ensures Valid()
      ensures this.config == config && this.hostCwd == hostCwd && this.which == which
      ensures this.shellEscape == shellEscape && this.toHtml == toHtml
      ensures lastTaskId == 0 && taskMap == map[] && order == [] && room == [] && wired == map[]
      ensures stdout.written == [] && fresh(stdout)
    {
      this.config := config;
      this.hostCwd := hostCwd;
      this.which := which;
      this.shellEscape := shellEscape;
      this.toHtml := toHtml;
      lastTaskId := 0;
      taskMap := map[];
      order := [];
      room := [];
      wired := map[];
      stdout := new OutputStream();
    }

    /**
     * The `initializeTask` listeners of task `id`: relays to the room the events `evs` the
     * task emitted after its first `n`, whether or not the task is still in the map. The
     * task was running exactly when `wasRunning` before them, and is now running exactly
     * when their last `start` or `stop` says so.
     */
    method Publish(id: string, n: nat, ghost prior: seq<Event>, ghost evs: seq<Event>, ghost wasRunning: bool)
      requires KeysOk(order, taskMap, lastTaskId) && Wired(taskMap, wired, lastTaskId)
      requires CreatedIds(room) <= Issued(lastTaskId)
      requires id in wired && ValidBut(wired, id) && wired[id].Valid()
      requires wired[id].trace == prior + evs && n == |prior| && CycleState(prior) == Some(wasRunning)
      modifies this`room
      ensures Valid()
      ensures room == old(room) + Relay(id, evs, toHtml)
      ensures wired[id].running == RunningAfter(wasRunning, evs)
    {
      var t := wired[id];
      assert t.trace[n..] == evs;
      CreatedIdsRelay(room, id, evs, toHtml);
      TasksJoin(wired, id);
      CycleStateConcat(prior, evs, wasRunning);
      room := room + Relay(id, t.trace[n..], toHtml);
    }

    // -------------------------------------------------------------------------
    // Socket commands on one task

    /** The `start` command; an unknown id is ignored. */
    method StartCommand(id: string, spawn: SpawnOutcome)
      requires Valid()
      modifies this`room, Present(id)`trace, Present(id)`running, Present(id)`process
      ensures Valid()
      ensures id !in taskMap ==> room == old(room)
      ensures id in taskMap ==>
        var evs := if old(taskMap[id].running) then [] else StartEvents(spawn);
        && room == old(room) + Relay(id, evs, toHtml)
        && taskMap[id].trace == old(taskMap[id].trace) + evs
        && taskMap[id].running == RunningAfter(old(taskMap[id].running), evs)
        && taskMap[id].process
          == if old(taskMap[id].running) then old(taskMap[id].process) else StartedProcess(spawn, old(taskMap[id].process))
    {
      if id !in taskMap {
        return;
      }
      var t := taskMap[id];
      ghost var running := t.running;
      var n := |t.trace|;
      NotOther(wired, id);
      assert Held(id) == Present(id);
      var _ := t.Start(spawn);
      Publish(id, n, old(t.trace), if running then [] else StartEvents(spawn), running);
    }

    /**
     * The `stop` command: the kill request for a running task. Nothing changes until the
     * process reports its end.
     */
    method StopCommand(id: string, platform: Platform) returns (kill: Option<KillRequest>)
      requires Valid()
      ensures id !in taskMap ==> kill == None
      ensures id in taskMap ==> kill == if taskMap[id].running
        then Some(KillRequestFor(platform, taskMap[id].process.value.pid)) else None
    {
      if id !in taskMap {
        return None;
      }
      var _, k := taskMap[id].Stop(platform);
      kill := k;
    }

    /** The `restart` command; an unknown id is ignored. */
    method RestartCommand(id: string, platform: Platform, termination: Termination, spawn: SpawnOutcome)
      returns (kill: Option<KillRequest>)
      requires Valid()
      modifies this`room, Present(id)`trace, Present(id)`running, Present(id)`process
      ensures Valid()
      ensures id !in taskMap ==> room == old(room) && kill == None
      ensures id in taskMap ==>
        var evs := StopWaitEvents(old(taskMap[id].running), termination) + StartEvents(spawn);
        && room == old(room) + Relay(id, evs, toHtml)
        && taskMap[id].trace == old(taskMap[id].trace) + evs
        && taskMap[id].running == RunningAfter(old(taskMap[id].running), evs)
        && taskMap[id].process == StartedProcess(spawn, old(taskMap[id].process))
        && kill == (if old(taskMap[id].running)
                    then Some(KillRequestFor(platform, old(taskMap[id].process).value.pid)) else None)
    {
      if id !in taskMap {
        return None;
      }
      var t := taskMap[id];
      ghost var running := t.running;
      var n := |t.trace|;
      NotOther(wired, id);
      assert Held(id) == Present(id);
      kill := t.Restart(platform, termination, spawn);
      Publish(id, n, old(t.trace),
        StopWaitEvents(running, termination) + StartEvents(spawn),
        running);
    }

    // -------------------------------------------------------------------------
    // What a task's child process reports, also after the task was closed

    /** The child process of task `id` emitted `error`. */
    method OnProcessError(id: string, error: ErrorValue)
      requires Valid()
      modifies this`room, Held(id)`trace, Held(id)`running
      ensures Valid()
      ensures id !in wired ==> room == old(room)
      ensures id in wired ==>
        var evs := HandleStopEvents(old(wired[id].running), Error(error));
        && room == old(room) + Relay(id, evs, toHtml)
        && wired[id].trace == old(wired[id].trace) + evs && !wired[id].running
    {
      if id !in wired {
        return;
      }
      var t := wired[id];
      ghost var running := t.running;
      var n := |t.trace|;
      NotOther(wired, id);
      t.OnProcessError(error);
      Publish(id, n, old(t.trace), HandleStopEvents(running, Error(error)), running);
    }

    /** The child process of task `id` emitted `exit` with `code`. */
    method OnProcessExit(id: string, code: Option<int>)
      requires Valid()
      modifies this`room, Held(id)`trace, Held(id)`running
      ensures Valid()
      ensures id !in wired ==> room == old(room)
      ensures id in wired ==>
        var evs := HandleStopEvents(old(wired[id].running), Exit(code));
        && room == old(room) + Relay(id, evs, toHtml)
        && wired[id].trace == old(wired[id].trace) + evs && !wired[id].running
    {
      if id !in wired {
        return;
      }
      var t := wired[id];
      ghost var running := t.running;
      var n := |t.trace|;
      NotOther(wired, id);
      t.OnProcessExit(code);
      Publish(id, n, old(t.trace), HandleStopEvents(running, Exit(code)), running);
    }

    /** A chunk of output of task `id`, relayed to the room as HTML with the same id. */
    method OnOutput(id: string, toStderr: bool, data: string)
      requires Valid()
      modifies this`room, Held(id)`trace
      ensures Valid()
      ensures id !in wired ==> room == old(room)
      ensures id in wired ==>
        && room == old(room) + [if toStderr then StderrHtml(id, toHtml(data)) else StdoutHtml(id, toHtml(data))]
        && wired[id].trace == old(wired[id].trace) + [if toStderr then Stderr(data) else Stdout(data)]
        && wired[id].running == old(wired[id].running)
    {
      if id !in wired {
        return;
      }
      var t := wired[id];
      ghost var running := t.running;
      var n := |t.trace|;
      NotOther(wired, id);
      t.OnOutput(toStderr, data);
      Publish(id, n, old(t.trace), [if toStderr then Stderr(data) else Stdout(data)], running);
      RelayOutput(id, toStderr, data, toHtml);
    }

    /**
     * The matcher of task `id` found `problems`: the report of the tasks in the map is
     * written out, whether or not task `id` is still among them.
     */
    method OnProblemsUpdate(id: string, problems: seq<Problem>)
      requires Valid()
      modifies this`room, stdout, Held(id)`trace, Held(id)`problemMatcher
      ensures Valid()
      ensures room == old(room)
      ensures id in wired && old(wired[id].problemMatcher).Some? ==>
        && wired[id].problemMatcher == Some(MatcherState(old(wired[id].problemMatcher).value.owner, problems))
        && wired[id].trace == old(wired[id].trace) + [ProblemsUpdate]
        && wired[id].running == old(wired[id].running)
        && stdout.written == old(stdout.written) + Report(Matchers(order))
      ensures !(id in wired && old(wired[id].problemMatcher).Some?) ==> stdout.written == old(stdout.written)
    {
      if id !in wired || wired[id].problemMatcher.None? {
        return;
      }
      UpdateMatcher(id, problems);
      WriteProblems();
    }

    /** The task's `problems-update` event: nothing is relayed, the task's matcher changes. */
    method UpdateMatcher(id: string, problems: seq<Problem>)
      requires Valid() && id in wired && wired[id].problemMatcher.Some?
      modifies this`room, Held(id)`trace, Held(id)`problemMatcher
      ensures Valid()
      ensures room == old(room)
      ensures wired[id].problemMatcher == Some(MatcherState(old(wired[id].problemMatcher).value.owner, problems))
      ensures wired[id].trace == old(wired[id].trace) + [ProblemsUpdate]
      ensures wired[id].running == old(wired[id].running)
    {
      var t := wired[id];
      ghost var running := t.running;
      var n := |t.trace|;
      NotOther(wired, id);
      t.UpdateProblems(problems);
      Publish(id, n, old(t.trace), [ProblemsUpdate], running);
      RelayProblemsUpdate(id, toHtml);
    }

    /** `outputProblems()`: the report over every task's matcher, written to standard output. */
    method WriteProblems()
      requires forall k :: k in order ==> k in taskMap
      modifies stdout
      ensures stdout.written == old(stdout.written) + Report(Matchers(order))
    {
      var report := OutputProblems(Matchers(order));
      stdout.written := stdout.written + report;
    }

    // -------------------------------------------------------------------------
    // Closing and creating

    /** `close(id)`: stop the task and wait for it, drop it from the map, then broadcast `close`. */
    method Close(id: string, platform: Platform, termination: Termination) returns (kill: Option<KillRequest>)
      requires Valid()
      modifies this`taskMap, this`order, this`room, Present(id)`trace, Present(id)`running
      ensures Valid()
      ensures id !in old(taskMap) ==>
        taskMap == old(taskMap) && order == old(order) && room == old(room) && kill == None
      ensures id in old(taskMap) ==>
        && taskMap == old(taskMap) - {id}
        && order == RemoveKey(old(order), id)
        && room == old(room) + CloseSegment(id, old(taskMap[id].running), termination, toHtml)
        && kill == (if old(taskMap[id].running)
                    then Some(KillRequestFor(platform, old(taskMap[id].process).value.pid)) else None)
        && id in wired && wired[id] == old(taskMap[id]) && !wired[id].running
        && wired[id].trace == old(taskMap[id].trace) + StopWaitEvents(old(taskMap[id].running), termination)
      ensures forall k :: k in taskMap ==> taskMap[k].running == old(taskMap[k].running)
      ensures forall k :: k in taskMap ==> taskMap[k].trace == old(taskMap[k].trace)
    {
      if id !in taskMap {
        return None;
      }
      ghost var before := room;
      ghost var stops := Relay(id, StopWaitEvents(taskMap[id].running, termination), toHtml);
      ghost var t := taskMap[id];
      kill := WaitStopped(id, platform, termination);
      assert t as object != this;
      Remove(id);
      AppendAssoc(before, stops, [Closed(id)]);
    }

    /** `await task.stopWait()` inside `close(id)`, with the task's events relayed. */
    method WaitStopped(id: string, platform: Platform, termination: Termination) returns (kill: Option<KillRequest>)
      requires Valid() && id in taskMap
      modifies this`room, Present(id)`trace, Present(id)`running
      ensures Valid()
      ensures room == old(room)
        + Relay(id, StopWaitEvents(old(taskMap[id].running), termination), toHtml)
      ensures kill == if old(taskMap[id].running)
        then Some(KillRequestFor(platform, old(taskMap[id].process).value.pid)) else None
      ensures taskMap[id].trace == old(taskMap[id].trace) + StopWaitEvents(old(taskMap[id].running), termination)
      ensures !taskMap[id].running
      ensures forall k :: k in taskMap && k != id ==> taskMap[k].running == old(taskMap[k].running)
      ensures forall k :: k in taskMap && k != id ==> taskMap[k].trace == old(taskMap[k].trace)
    {
      var t := taskMap[id];
      ghost var running := t.running;
      var n := |t.trace|;
      NotOther(wired, id);
      assert Held(id) == Present(id);
      kill := t.StopWait(platform, termination);
      Publish(id, n, old(t.trace),
        StopWaitEvents(running, termination), running);
    }

    /** `taskMap.delete(id)`, then the `close` broadcast; the task's listeners stay wired. */
    method Remove(id: string)
      requires Valid() && id in taskMap
      modifies this`taskMap, this`order, this`room
      ensures Valid()
      ensures taskMap == old(taskMap) - {id}
      ensures order == RemoveKey(old(order), id)
      ensures room == old(room) + [Closed(id)]
      ensures forall k :: k in taskMap ==> taskMap[k].running == old(taskMap[k].running)
      ensures forall k :: k in taskMap ==> taskMap[k].trace == old(taskMap[k].trace)
    {
      KeysRemove(order, taskMap, lastTaskId, id);
      WiredRemove(taskMap, wired, lastTaskId, id);
      CreatedAfterClose(room, id);
      taskMap := taskMap - {id};
      order := RemoveKey(order, id);
      room := room + [Closed(id)];
    }

    /**
     * `closeAll()`: every task present is closed. The source closes them concurrently; here
     * they are closed one after another in map order: the first, then the rest.
     */
    method CloseAll(platform: Platform, termination: string -> Termination)
      returns (kills: seq<Option<KillRequest>>)
      requires Valid()
      modifies this`taskMap, this`order, this`room, taskMap.Values`trace, taskMap.Values`running
      ensures Valid()
      ensures taskMap == map[] && order == [] && wired == old(wired)
      ensures room == old(room) + ClosingLog(old(order), old(RunningMap()), termination, toHtml)
      ensures KillsMatch(kills, old(order), old(RunningMap()))
      ensures AllIdle(old(taskMap.Values))
      ensures StoppedFrom(old(taskMap), old(order), old(Traces()), old(RunningMap()), termination)
      decreases |order|
    {
      if order == [] {
        return [];
      }
      ghost var running := RunningMap();
      ghost var t0 := Traces();
      ghost var ids := order;
      var k := order[0];
      ghost var closed := taskMap[k];
      var kill := CloseFirst(platform, termination(k));
      WiredGone(taskMap, wired, lastTaskId, k);
      ghost var m1 := taskMap;
      ValuesRemove(old(taskMap), k);
      ghost var after := RunningMap();
      ghost var traces := Traces();
      ClosingLogFirst(ids, running, after, termination, toHtml);
      ghost var frame: set<object> := taskMap.Values;
      assert closed !in frame && closed as object != this;
      var rest := CloseAll(platform, termination);
      IdleUnion(m1.Values, closed, old(taskMap.Values));
      StoppedFromFirst(old(taskMap), m1, ids, traces, after, termination, t0, running);
      kills := [kill] + rest;
      KillsFirst(kill, rest, ids, running, after);
      AppendAssoc(old(room), CloseSegment(k, running[k], termination(k), toHtml),
                  ClosingLog(ids[1..], after, termination, toHtml));
    }

    /** One pass of `closeAll`'s loop: the first task in map order is closed. */
    method CloseFirst(platform: Platform, termination: Termination) returns (kill: Option<KillRequest>)
      requires Valid() && order != []
      modifies this`taskMap, this`order, this`room, Present(order[0])`trace, Present(order[0])`running
      ensures Valid()
      ensures order == old(order[1..]) && taskMap == old(taskMap) - {old(order[0])} && wired == old(wired)
      ensures forall k :: k in taskMap ==> k in old(taskMap) && taskMap[k] == old(taskMap[k])
      ensures forall k :: k in taskMap ==> taskMap[k].running == old(taskMap[k].running)
      ensures forall k :: k in taskMap ==> taskMap[k].trace == old(taskMap[k].trace)
      ensures room == old(room) + CloseSegment(old(order[0]), old(taskMap[order[0]].running), termination, toHtml)
      ensures kill.Some? <==> old(taskMap[order[0]].running)
      ensures old(order[0]) in wired && wired[old(order[0])] == old(taskMap[order[0]]) && !wired[old(order[0])].running
      ensures wired[old(order[0])].trace == old(taskMap[order[0]].trace)
        + StopWaitEvents(old(taskMap[order[0]].running), termination)
    {
      RemoveKeyFirst(order);
      kill := Close(order[0], platform, termination);
    }

    /**
     * `create(names, closeAll)`: optionally close everything first, then give each name the
     * next id, broadcast `create`, start the task and add it to the map. A name the
     * configuration does not know ends the call with a failure, after its id was used up.
     * Without `closeAll` the tasks already present are left exactly as they were.
     */
    method Create(names: seq<string>, closeAll: bool, platform: Platform,
                  termination: string -> Termination, spawn: string -> SpawnOutcome)
      returns (ok: bool)
      requires Valid()
      modifies this`lastTaskId, this`taskMap, this`order, this`room, this`wired, taskMap.Values`trace, taskMap.Values`running
      ensures Valid()
      ensures ok <==> KnownPrefix(config, names) == |names|
      ensures lastTaskId == old(lastTaskId) + KnownPrefix(config, names) + (if ok then 0 else 1)
      ensures order == (if closeAll then [] else old(order)) + NewIds(old(lastTaskId), KnownPrefix(config, names))
      ensures room == old(room)
        + (if closeAll then ClosingLog(old(order), old(RunningMap()), termination, toHtml) else [])
        + CreationLog(old(lastTaskId), names, KnownPrefix(config, names), spawn)
      ensures !closeAll ==> Extends(taskMap, old(taskMap))
      ensures !closeAll ==> forall t :: t in old(taskMap.Values) ==> unchanged(t)
      ensures closeAll ==> AllIdle(old(taskMap.Values))
      ensures closeAll ==> StoppedFrom(old(taskMap), old(order), old(Traces()), old(RunningMap()), termination)
      ensures NamesOf(taskMap, NewIds(old(lastTaskId), KnownPrefix(config, names)))
        == names[..KnownPrefix(config, names)]
      ensures JustStarted(taskMap, NewIds(old(lastTaskId), KnownPrefix(config, names)), spawn)
      ensures Extends(wired, old(wired))
    {
      ghost var closing := if closeAll then ClosingLog(order, RunningMap(), termination, toHtml) else [];
      ghost var idle: set<Task> := {};
      if closeAll {
        idle := taskMap.Values;
        WiredValues(taskMap, wired, lastTaskId);
        var _ := CloseAll(platform, termination);
      } else {
        assert AllIdle(idle);
        assert old(room) + closing == old(room);
      }
      assert room == old(room) + closing;
      ok := CreateTasks(names, spawn, idle);
    }

    /** The loop of `create(names, closeAll)`, after the optional `closeAll()`. */
    method CreateTasks(names: seq<string>, spawn: string -> SpawnOutcome, ghost idle: set<Task>) returns (ok: bool)
      requires Valid() && AllIdle(idle) && idle <= wired.Values
      modifies this`lastTaskId, this`taskMap, this`order, this`room, this`wired
      ensures Valid()
      ensures ok <==> KnownPrefix(config, names) == |names|
      ensures lastTaskId == old(lastTaskId) + KnownPrefix(config, names) + (if ok then 0 else 1)
      ensures forall t :: t in old(wired.Values) ==> unchanged(t)
      ensures AllIdle(idle)
      ensures CreatedSoFar(names, KnownPrefix(config, names), spawn, old(lastTaskId), old(taskMap), old(order), old(room),
                           taskMap, order, room)
      ensures JustStarted(taskMap, NewIds(old(lastTaskId), KnownPrefix(config, names)), spawn)
      ensures Extends(wired, old(wired))
    {
      var i := 0;
      while i < |names|
        invariant Valid()
        invariant 0 <= i <= KnownPrefix(config, names)
        invariant lastTaskId == old(lastTaskId) + i
        invariant CreatedSoFar(names, i, spawn, old(lastTaskId), old(taskMap), old(order), old(room),
                               taskMap, order, room)
        invariant JustStarted(taskMap, NewIds(old(lastTaskId), i), spawn)
        invariant Extends(wired, old(wired))
      {
        var options := LookupTask(config.tasks, names[i]);
        KnownPrefixStop(config, names, i);
        if options.None? {
          UseId();
          return false;
        }
        CreateNext(names, i, options.value, spawn, old(lastTaskId), old(taskMap), old(order), old(room), old(wired));
        i := i + 1;
      }
      assert i == KnownPrefix(config, names);
      ok := true;
    }

    /** One pass of `create`'s loop for a known name: the next task, under the next id. */
    method CreateNext(names: seq<string>, i: nat, options: TaskConfig, spawn: string -> SpawnOutcome,
                      ghost last: nat, ghost m0: map<string, Task>, ghost order0: seq<string>,
                      ghost room0: seq<Broadcast>, ghost w0: map<string, Task>)
      requires Valid() && i < |names| && LookupTask(config.tasks, names[i]) == Some(options)
      requires lastTaskId == last + i
      requires CreatedSoFar(names, i, spawn, last, m0, order0, room0, taskMap, order, room)
      requires JustStarted(taskMap, NewIds(last, i), spawn) && Extends(wired, w0)
      modifies this`lastTaskId, this`taskMap, this`order, this`room, this`wired
      ensures Valid() && lastTaskId == last + i + 1
      ensures CreatedSoFar(names, i + 1, spawn, last, m0, order0, room0, taskMap, order, room)
      ensures JustStarted(taskMap, NewIds(last, i + 1), spawn) && Extends(wired, w0)
    {
      ghost var m, ord, log, w := taskMap, order, room, wired;
      var id, t := AddStarted(names[i], options, spawn, NewIds(last, i));
      CreatedNext(names, i, spawn, last, m0, order0, room0, m, ord, log, lastTaskId, id, t);
      ExtendsAdd(w, w0, id, t);
      NewIdsSnoc(last, i, lastTaskId, id);
    }

    /**
     * After the first `i` names of `create`, all known, starting from id `last` and the map,
     * order and broadcasts `m0`, `order0` and `room0`: each got the next id in turn, its
     * creation was broadcast, its task joined the map under that id with that name, and
     * every earlier task is still there.
     */
    ghost predicate CreatedSoFar(names: seq<string>, i: nat, spawn: string -> SpawnOutcome, last: nat,
                                 m0: map<string, Task>, order0: seq<string>, room0: seq<Broadcast>,
                                 m: map<string, Task>, order: seq<string>, room: seq<Broadcast>)
      requires i <= |names|
    {
      && order == order0 + NewIds(last, i)
      && room == room0 + CreationLog(last, names, i, spawn)
      && Extends(m, m0)
      && NamesOf(m, NewIds(last, i)) == names[..i]
    }

    /** One more known name, created under the next id, extends what was created so far. */
    lemma CreatedNext(names: seq<string>, i: nat, spawn: string -> SpawnOutcome, last: nat,
                      m0: map<string, Task>, order0: seq<string>, room0: seq<Broadcast>,
                      m: map<string, Task>, order: seq<string>, room: seq<Broadcast>,
                      next: nat, id: string, t: Task)
      requires i < |names| && LookupTask(config.tasks, names[i]).Some?
      requires CreatedSoFar(names, i, spawn, last, m0, order0, room0, m, order, room)
      requires next == last + i + 1 && id == IdOf(next) && id !in m && t.name == names[i]
      ensures CreatedSoFar(names, i + 1, spawn, last, m0, order0, room0, m[id := t], order + [id],
                     room + CreationSegment(id, names[i], LookupTask(config.tasks, names[i]).value, spawn(id)))
    {
      var seg := CreationSegment(id, names[i], LookupTask(config.tasks, names[i]).value, spawn(id));
      CreationLogNext(last, names, i, spawn, next, id);
      AppendAssoc(room0, CreationLog(last, names, i, spawn), seg);
      NewIdsSnoc(last, i, next, id);
      AppendAssoc(order0, NewIds(last, i), [id]);
      ExtendsAdd(m, m0, id, t);
      NewIdsOutside(last, i, next);
      NamesOfAdd(m, NewIds(last, i), id, t);
      TakeNext(names, i);
    }

    /** `AddTask`, keeping track of the tasks `ids` this call of `create` has started. */
    method AddStarted(name: string, options: TaskConfig, spawn: string -> SpawnOutcome, ghost ids: seq<string>)
      returns (id: string, t: Task)
      requires Valid() && JustStarted(taskMap, ids, spawn)
      modifies this`lastTaskId, this`taskMap, this`order, this`room, this`wired
      ensures Valid()
      ensures lastTaskId == old(lastTaskId) + 1 && id == IdOf(lastTaskId)
      ensures id !in old(taskMap) && id !in old(wired) && id !in CreatedIds(old(room))
      ensures taskMap == old(taskMap)[id := t] && wired == old(wired)[id := t]
      ensures fresh(t) && t.name == name
      ensures order == old(order) + [id]
      ensures room == old(room) + CreationSegment(id, name, options, spawn(id))
      ensures JustStarted(taskMap, ids + [id], spawn)
    {
      ghost var m := taskMap;
      id, t := AddTask(name, options, spawn);
      JustStartedAdd(m, ids, spawn, id, t);
    }

    /** `++this.lastTaskId`: the next id, which no task present, wired or announced has. */
    method UseId()
      requires Valid()
      modifies this`lastTaskId
      ensures Valid()
      ensures lastTaskId == old(lastTaskId) + 1
      ensures IdOf(lastTaskId) in Issued(lastTaskId)
      ensures IdOf(lastTaskId) !in taskMap && IdOf(lastTaskId) !in wired && IdOf(lastTaskId) !in CreatedIds(room)
    {
      IssuedNext(lastTaskId);
      WiredNext(taskMap, wired, lastTaskId);
      lastTaskId := lastTaskId + 1;
    }

    /**
     * One pass of `create`'s loop for a name the configuration knows: the next id, the new
     * task's `create` broadcast, its listeners wired and the task started, then the task
     * added to the map.
     */
    method AddTask(name: string, options: TaskConfig, spawn: string -> SpawnOutcome) returns (id: string, t: Task)
      requires Valid()
      modifies this`lastTaskId, this`taskMap, this`order, this`room, this`wired
      ensures Valid()
      ensures lastTaskId == old(lastTaskId) + 1 && id == IdOf(lastTaskId)
      ensures id !in old(taskMap) && id !in old(wired) && id !in CreatedIds(old(room))
      ensures taskMap == old(taskMap)[id := t] && wired == old(wired)[id := t]
      ensures fresh(t) && t.name == name && t.problemMatcher == MatcherFor(options)
      ensures t.trace == StartEvents(spawn(id)) && t.running == spawn(id).Spawned?
      ensures t.process == StartedProcess(spawn(id), None)
      ensures order == old(order) + [id]
      ensures room == old(room) + CreationSegment(id, name, options, spawn(id))
    {
      UseId();
      id := IdOf(lastTaskId);
      t := Launch(id, name, options, spawn(id));
      Insert(id, t);
    }

    /**
     * The body of `create`'s loop from the `create` broadcast on: the new task object,
     * the broadcast, the listeners of `initializeTask` and `task.start()`.
     */
    method Launch(id: string, name: string, options: TaskConfig, spawn: SpawnOutcome) returns (t: Task)
      requires Valid() && id in Issued(lastTaskId)
      modifies this`room
      ensures Valid()
      ensures fresh(t) && t.Valid() && t.name == name && t.problemMatcher == MatcherFor(options)
      ensures t.trace == StartEvents(spawn) && t.running == spawn.Spawned?
      ensures t.process == StartedProcess(spawn, None)
      ensures room == old(room) + CreationSegment(id, name, options, spawn)
    {
      t := Build(name, options);
      Announce(id, name, LineFor(options));
      StartNew(t, spawn);
      RelayStart(id, spawn);
      AppendAssoc(old(room), [Created(id, name, LineFor(options))], Relay(id, StartEvents(spawn), toHtml));
    }

    /** The matcher a task created from `options` starts with: the configured owner, no problems yet. */
    function MatcherFor(options: TaskConfig): Option<MatcherState> {
      var matcher := ResolveMatcher(config, options.problemMatcher);
      if matcher.Some? then Some(MatcherState(matcher.value.owner, [])) else None
    }

    /**
     * `new Task(name, ...)` from the task's configuration: idle, with the configured
     * executable and arguments, the directory, the output flags, the executable as found
     * on the search path, and the matcher of its configuration.
     */
    method Build(name: string, options: TaskConfig) returns (t: Task)
      ensures fresh(t) && t.Valid() && t.name == name
      ensures !t.running && t.process == None && t.trace == [] && t.Line() == LineFor(options)
      ensures t.executable == options.executable && t.args == options.args.GetOr([])
      ensures t.options == TaskOptions(CwdFor(options.cwd, hostCwd), options.stdout.GetOr(false), options.stderr.GetOr(false))
      ensures t.path == which(options.executable).GetOr(options.executable)
      ensures t.problemMatcher == MatcherFor(options)
    {
      var matcher := ResolveMatcher(config, options.problemMatcher);
      t := new Task(name, options.executable, options.args.GetOr([]),
                    TaskOptions(CwdFor(options.cwd, hostCwd), options.stdout.GetOr(false), options.stderr.GetOr(false)),
                    which(options.executable), shellEscape,
                    if matcher.Some? then Some(MatcherState(matcher.value.owner, [])) else None);
    }

    /** `task.start()` on a new task whose listeners are wired but which is not in the map yet. */
    method StartNew(t: Task, spawn: SpawnOutcome)
      requires Valid() && t.Valid() && t !in wired.Values && !t.running && t.trace == [] && t.process == None
      modifies t`trace, t`running, t`process
      ensures Valid() && t.Valid()
      ensures t.trace == StartEvents(spawn) && t.running == spawn.Spawned?
      ensures t.process == StartedProcess(spawn, None)
    {
      var _ := t.Start(spawn);
      assert t.trace == [] + StartEvents(spawn);
    }

    /** The `create` broadcast for a task under an issued id. */
    method Announce(id: string, name: string, line: string)
      requires Valid() && id in Issued(lastTaskId)
      modifies this`room
      ensures Valid() && room == old(room) + [Created(id, name, line)]
    {
      assert CreatedIds([Created(id, name, line)]) == {id} by {
        assert [Created(id, name, line)][0].Created?;
      }
      Emit([Created(id, name, line)]);
    }

    /** The relayed start events of a task; they announce no task. */
    method RelayStart(id: string, spawn: SpawnOutcome)
      requires Valid()
      modifies this`room
      ensures Valid() && room == old(room) + Relay(id, StartEvents(spawn), toHtml)
    {
      CreatedIdsRelay([], id, StartEvents(spawn), toHtml);
      assert [] + Relay(id, StartEvents(spawn), toHtml) == Relay(id, StartEvents(spawn), toHtml);
      Emit(Relay(id, StartEvents(spawn), toHtml));
    }

    /** `this.room.emit(...)` of broadcasts that announce only issued ids. */
    method Emit(bs: seq<Broadcast>)
      requires Valid() && CreatedIds(bs) <= Issued(lastTaskId)
      modifies this`room
      ensures Valid() && room == old(room) + bs
    {
      CreatedIdsConcat(room, bs);
      room := room + bs;
    }

    /** `this.taskMap.set(id, task)` for a new, wired task under a new id. */
    method Insert(id: string, t: Task)
      requires Valid() && id in Issued(lastTaskId) && id !in wired && t !in wired.Values && t.Valid()
      modifies this`taskMap, this`order, this`wired
      ensures Valid()
      ensures taskMap == old(taskMap)[id := t] && order == old(order) + [id] && wired == old(wired)[id := t]
    {
      assert id !in taskMap && t !in taskMap.Values;
      KeysInsert(order, taskMap, lastTaskId, id, t);
      WiredInsert(taskMap, wired, lastTaskId, id, t);
      TasksAdd(wired, id, t);
      taskMap := taskMap[id := t];
      order := order + [id];
      wired := wired[id := t];
    }

    // -------------------------------------------------------------------------
    // A new viewer

    /** The `initialize` message sent to a viewer that connects. */
    method Initialize() returns (taskNames: seq<string>, taskGroups: Option<seq<TaskGroup>>,
                                 createdTasks: seq<TaskView>)
      requires Valid()
      ensures taskNames == TaskNames(config.tasks)
      ensures taskGroups == config.groups
      ensures |createdTasks| == |order|
      ensures forall i :: 0 <= i < |order| ==>
        var t := taskMap[order[i]];
        createdTasks[i] == TaskView(order[i], t.name, t.Line(), t.running)
    {
      taskNames := TaskNames(config.tasks);
      taskGroups := config.groups;
      createdTasks := [];
      for i := 0 to |order|
        invariant |createdTasks| == i
        invariant forall j :: 0 <= j < i ==>
          var t := taskMap[order[j]];
          createdTasks[j] == TaskView(order[j], t.name, t.Line(), t.running)
      {
        var t := taskMap[order[i]];
        createdTasks := createdTasks + [TaskView(order[i], t.name, t.Line(), t.running)];
      }
    }
  }
}
