# biu task supervisor — a Dafny model

biu runs the commands of a project (build watchers, servers, test runners) as
supervised child processes and shows them in a browser. This project models
its core:

- **the task** (`src/core/task.ts`): a `running` flag guarded by `start`,
  `stop`, `stopWait`, `restart` and `handleStop`, and the events it emits
  (`start`, `error`, `exit`, `stop`, `stdout`, `stderr`). The model records the
  emitted events in a `trace` field and proves that `start` and `stop`
  alternate and that `running` says whether a cycle is open.
- **the server** (`src/core/server.ts`): the registry of tasks keyed by decimal
  ids, `create` (with and without `closeAll`), `close`, `closeAll`, the socket
  commands `start`, `stop` and `restart`, the listeners of `initializeTask` that
  relay task events to the `biu` room, the `initialize` snapshot for a new
  viewer, and `outputProblems`, the problem report written to standard output.
  The room is the sequence of broadcasts sent so far. The listeners of
  `initializeTask` are kept in a map of their own, `wired`, because `close`
  deletes a task from `taskMap` but leaves its listeners in place: a closed
  task whose process reports later is still relayed. The server's invariant
  says four things. Ids are never reused. Every task in the map is wired under
  its id. Every wired task is in a consistent state. Only issued ids were ever
  announced.
- **the command display** (`cli/biu.js`, lines 32-43): each part of a command
  line that holds white space or a double quote is quoted, with inner quotes
  doubled. The parts are joined with spaces. A parser for the display is given,
  and the round trip `ParseDisplay(Display(command, args)) == [command] + args`
  is proved.

What the operating system decides is an input of the model. That covers:

- whether `spawn` returns a process or throws;
- the pid;
- how a killed process reports its end (`error` or `exit` with a code);
- the platform (`taskkill` on Windows, a signal elsewhere).

The search-path lookup, `shell-escape` and the ANSI-to-HTML converter are
uninterpreted functions given to the server.

Files:

- `common.dfy`: Option, distinctness, sequence lemmas.
- `ids.dfy`: the decimal id text, its inverse, injectivity.
- `task.dfy`: the Task class and its cycle proofs.
- `room.dfy`: broadcasts, relaying, and what a viewer's task list becomes.
- `registry.dfy`: the registry invariant and the lemmas for each update.
- `problems.dfy`: `outputProblems`.
- `server.dfy`: the Server class.
- `display.dfy`: the command display.

## Model

| member | source | states |
|---|---|---|
| Tasks.Task.constructor | src/core/task.ts:22-35 | a new task is idle with an empty trace; `path` is the resolved executable, or the executable itself when the lookup fails |
| Tasks.Task.Start | src/core/task.ts:41-73 | on a running task: returns false and changes nothing; otherwise emits `start`, and if spawn throws also the error and `stop`; ends running exactly when spawn succeeded, holding the spawned child (or, when spawn threw, the one it held before), and keeps the cycle invariant |
| Tasks.Task.Stop | src/core/task.ts:75-87 | returns whether the task was running; issues a kill request exactly then (`taskkill /f /t /pid <pid>` on Windows, a signal to the pid elsewhere); changes nothing |
| Tasks.Task.HandleStop | src/core/task.ts:100-111 | emits `error` when an error is given, else `exit` with the code, then `stop` only if the task was running; the task ends idle |
| Tasks.Task.OnProcessError | src/core/task.ts:58 | the process's `error` runs handleStop with the error and keeps the invariant |
| Tasks.Task.OnProcessExit | src/core/task.ts:59 | the process's `exit` runs handleStop with the code and keeps the invariant |
| Tasks.Task.OnOutput | src/core/task.ts:61-62 | each output chunk is re-emitted on the same stream; the running state is unchanged |
| Tasks.Task.StopWait | src/core/task.ts:89-93 | on an idle task returns at once with no events; otherwise the kill of its child, then the process's report and `stop` as the last event; the task ends idle and keeps its child |
| Tasks.Task.Restart | src/core/task.ts:95-98 | the old run's report and `stop` (if it was running) come before the new `start` events; the kill of the old child when it was running; ends running exactly when spawn succeeded, holding the spawned child (the previous one when spawn threw) |
| Tasks.Task.Cycles | src/core/task.ts:41-111 | in every reachable state the `start` and `stop` events alternate, and `running` holds exactly when the last of them is a `start` |
| Tasks.CycleStateMeans | src/core/task.ts:41-111 | the running-flag state machine accepts a trace exactly when its start/stop events alternate, and is then open exactly when the count of those events is odd |
| Tasks.CycleStateConcat | src/core/task.ts:41-111 | after further events the flag is what the last `start` or `stop` among them says, or unchanged if there is none |
| Tasks.StartKeepsCycles | src/core/task.ts:41-56 | `start` on an idle task opens a cycle, and a failed spawn closes it again at once |
| Tasks.HandleStopKeepsCycles | src/core/task.ts:100-111 | handleStop's events close any open cycle and never open one |
| Tasks.ReportEvent | src/core/task.ts:101-105 | the first handleStop event is `error` exactly when an error is given, carrying it, and otherwise exactly `exit` with the given code |
| Tasks.Task.UpdateProblems | src/core/server.ts:183 | replaces the problems of the task's matcher, keeps its owner, and emits `problems-update` without touching the running state |
| Ids.ParseDecimalString | src/core/server.ts:62 | the decimal text of a counter value reads back as that value |
| Ids.IdOfInjective | src/core/server.ts:62 | two counter values give the same id exactly when they are equal |
| Ids.IssuedExactly | src/core/server.ts:62 | the id of `j` has been handed out exactly when 1 <= j <= the counter |
| Room.Relay | src/core/server.ts:155-181 | every relayed broadcast carries the task's id, none is a `create` or `close`, and there is at most one per event |
| Room.CreatedIdsRelay | src/core/server.ts:155-181 | relayed task events never announce a task |
| Room.RelayViews | src/core/server.ts:155-157 | replaying a task's relayed events changes only that task's `running` in a viewer's list, to whether it runs after the events |
| Room.CreateViews | src/core/server.ts:82-90 | a `create` followed by the task's events adds the task last in the viewer's list, with its name, line and running state |
| Room.CloseListed | src/core/server.ts:109-111 | a `close` removes the task's row from a viewer's list and keeps the others in map order |
| Room.CreateListed | src/core/server.ts:82-92 | a created task's broadcasts add its row last, in step with the map's insertion order |
| Room.RelayListed | src/core/server.ts:155-181 | relayed events keep a viewer's list in step with the tasks' rows, updating `running` only |
| Room.RemoveKey | src/core/server.ts:109 | `delete(id)` on the map's key order keeps exactly the other keys |
| Room.RemoveKeyDistinct | src/core/server.ts:109 | deleting a key keeps the key order free of repeats |
| Room.RemoveKeyFirst | src/core/server.ts:97 | deleting the first key leaves the rest in order |
| Registry.KeysInsert | src/core/server.ts:92 | storing a task under a new, issued id keeps the keys distinct, in insertion order and issued, with no task stored twice |
| Registry.KeysRemove | src/core/server.ts:109 | deleting a key keeps the keys distinct, in insertion order and issued |
| Registry.WiredInsert | src/core/server.ts:70-92 | a new task wired and stored under a new issued id keeps every stored task wired under its key and no task wired twice |
| Registry.WiredGone | src/core/server.ts:109 | a task deleted from the map is held under no other key |
| Registry.WiredRemove | src/core/server.ts:109 | deleting a key leaves the listeners of every task wired, the deleted one included |
| Registry.NamesOfAdd | src/core/server.ts:92 | storing a task under a new key names one more id, the others as before |
| Problems.OutputProblems | src/core/server.ts:119-153 | the text written is the report: for each owner in order of first appearance, its begin marker, one marker per distinct line, its end marker |
| Problems.CollectLines | src/core/server.ts:120-142 | the first loop builds the owner table: keys exactly the owners, in first-appearance order, each mapped to its distinct lines |
| Problems.CollectTask | src/core/server.ts:122-141 | one task: no matcher leaves the table as it is; a matcher adds its owner if new and its formatted lines |
| Problems.AddProblems | src/core/server.ts:133-141 | adding formatted lines to a set one by one keeps the first occurrence of each |
| Problems.WriteBlock | src/core/server.ts:145-151 | one owner's block: begin marker, one `[biu-problem;...]` marker per line, end marker |
| Problems.OwnersExact | src/core/server.ts:122-131 | the owners are pairwise distinct, and an owner is listed exactly when some task's matcher has it |
| Problems.LinesOfExact | src/core/server.ts:127-141 | an owner's lines are distinct, and a line is listed exactly when a task with that owner has a problem that formats to it |
| Problems.FormatsMembers | src/core/server.ts:134-140 | a line is among the formatted problems exactly when some problem formats to it |
| Problems.NoMatcherContributesNothing | src/core/server.ts:123-125 | a task without a matcher, at any position among the tasks, changes neither the owners nor any owner's lines nor the report |
| Problems.DuplicateProblemCollapses | src/core/server.ts:122-151 | one more task reporting a problem its owner already has leaves the owners, every owner's lines and the whole report unchanged |
| Problems.DuplicateLineCollapses | src/core/server.ts:133-141 | a problem an owner already reports leaves that owner's Set of lines unchanged |
| Problems.DedupMembers | src/core/server.ts:133-141 | a Set holds exactly the lines added to it |
| Problems.DedupDistinct | src/core/server.ts:133-141 | a Set never holds a line twice |
| TaskServer.TaskNames | src/core/server.ts:232 | the task names of the snapshot are the configuration's keys, in order |
| TaskServer.LookupTaskMeans | src/core/server.ts:64 | `config.tasks[name]` yields an entry with that key, and fails exactly when no entry has it |
| TaskServer.KnownPrefixMeans | src/core/server.ts:61-64 | every name before the first unknown one is known, and the prefix ends at an unknown name unless it is all the names |
| TaskServer.NewIdsDistinct | src/core/server.ts:62 | the ids handed out in one `create` are pairwise distinct |
| TaskServer.NewIdsIssued | src/core/server.ts:62 | those ids were not issued before the call, and are issued after it |
| TaskServer.NewIdsOutside | src/core/server.ts:62 | an id whose number lies outside the ones handed out is not among them |
| TaskServer.ClosingLogCreateFree | src/core/server.ts:96-112 | `closeAll` announces no task and broadcasts a `close` for every task present |
| TaskServer.ClosesBeforeCreates | src/core/server.ts:54-57 | in closing broadcasts followed by creating ones, no `close` follows a `create` |
| TaskServer.Server.CreateClosesFirst | src/core/server.ts:54-94 | with `closeAll`, every `close` of the old tasks is broadcast before the first `create` of the new batch |
| TaskServer.Server.CreationLogCloseFree | src/core/server.ts:61-93 | `create`'s loop closes no task |
| TaskServer.Server.CreationSegmentShape | src/core/server.ts:82-90 | a pass of `create`'s loop broadcasts `create` first, with id, name and line, then only the task's own events |
| TaskServer.Server.constructor | src/core/server.ts:34-48 | a new server has counter 0, no tasks, no listeners, no broadcasts and satisfies the invariant |
| TaskServer.Server.Create | src/core/server.ts:54-94 | keeps the invariant; optionally closes every task first; then creates the known names in order, each under the next id, broadcasting `create` and its start events; the map gets the new tasks with their names, each having just run `start()` with the spawn outcome of its id and holding the child it spawned; without `closeAll` the tasks already present are left exactly as they were; with it every one of them ends idle, having recorded its stop events as `stopWait()` with its termination emits them, and keeps its child and matcher; listeners once wired stay wired; fails at the first unknown name, after its id was used |
| TaskServer.Server.CreateTasks | src/core/server.ts:61-93 | the loop: one id per known name in order, the map, key order and broadcasts extended accordingly, each new task having just run `start()` with its spawn outcome and holding the child it spawned; tasks already wired are left untouched; an unknown name uses one more id and stops |
| TaskServer.JustStartedAdd | src/core/server.ts:86-92 | a task started under a new id, with its start events, running state and spawned child, joins the tasks started in this call of `create` |
| TaskServer.StoppedFromFirst | src/core/server.ts:96-98 | a task closed first in map order, together with the rest closed after it, gives every task of the map its `stopWait()` events |
| TaskServer.Server.AddTask | src/core/server.ts:62-92 | the next id is new to the map, the listeners and the room; the room gets the task's `create` and start events; the map, key order and listeners get the task under that id; the task has the configured matcher, its events are the start events, it runs exactly when spawn succeeded and holds the spawned child |
| TaskServer.Server.AddStarted | src/core/server.ts:62-92 | a pass of the loop adds its task, with its start events, running state and spawned child, to those started so far in the call |
| TaskServer.Server.Launch | src/core/server.ts:70-90 | builds the task, broadcasts `create` with its line, wires the relays and starts it; the room grows by exactly that; the task's events are the start events, it runs exactly when spawn succeeded, holds the spawned child (none when spawn threw), and its matcher is the configured one |
| TaskServer.Server.StartNew | src/core/server.ts:90 | `task.start()` on the new idle task, which holds no child yet, records exactly the start events, leaves it running exactly when spawn succeeded and holding the spawned child; only the task's trace, running flag and child may change |
| TaskServer.Server.Build | src/core/server.ts:59-80 | the new task is idle with no child and an empty trace, the configured name, executable, arguments (none when absent) and line; its directory is the configured one resolved against the server's, its `stdout`/`stderr` flags default to false, its path is the search-path result or the executable itself, and its matcher is the configured one (a named matcher looked up in the shared table) with no problems |
| TaskServer.Server.UseId | src/core/server.ts:62 | `++lastTaskId` gives an id held by no task, wired to no listener and announced by no broadcast |
| TaskServer.Server.Insert | src/core/server.ts:92 | `taskMap.set` adds the new key last in insertion order, the task's listeners are recorded under it, and the invariant is kept |
| TaskServer.Server.Close | src/core/server.ts:100-112 | an id not in the map, closed before or never created, changes nothing, no task included; otherwise the kill of the task's child if running, the task's stop events recorded and relayed, the task left idle and still wired, the key deleted, then `close`; only the closed task's trace and running flag may change, so its child and matcher are kept; other tasks keep their trace and running state |
| TaskServer.Server.WaitStopped | src/core/server.ts:107 | `await task.stopWait()` relays exactly the task's stop events, which the task records, leaves the task idle, and returns the kill of its child; only that task's trace and running flag may change |
| TaskServer.Server.Remove | src/core/server.ts:109-111 | deletes the key, keeps the key order of the rest and their trace and running state, then broadcasts `close`; the task's listeners stay wired |
| TaskServer.Server.CloseAll | src/core/server.ts:96-98 | every task is closed and ends idle, each having recorded exactly the stop events `stopWait()` emits with its termination; only the tasks' traces and running flags may change, so their children and matchers are kept; the map is empty after and the listeners are as before; the room gets each task's close broadcasts in map order; a kill is issued exactly for the running ones |
| TaskServer.Server.CloseFirst | src/core/server.ts:97 | closes the first task in map order, which ends idle with its stop events recorded and keeps its child and matcher, leaving the other tasks, their traces and their running state alone |
| TaskServer.Server.Publish | src/core/server.ts:155-181 | the `initializeTask` listeners of a wired task relay exactly the events it emitted, in order, whether or not it is still in the map; its running state follows the last `start` or `stop` among them |
| TaskServer.Server.StartCommand | src/core/server.ts:211-219 | an id not in the map, even a closed one, is ignored and no task changes; otherwise `task.start()`: nothing on a running task, else the start events, recorded by the task and relayed; the task then runs as those events say and holds the child spawned (its previous one when it was running or spawn threw); its matcher is kept |
| TaskServer.Server.StopCommand | src/core/server.ts:221-229 | an unknown id is ignored; otherwise the kill request for a running task |
| TaskServer.Server.RestartCommand | src/core/server.ts:201-209 | an id not in the map, even a closed one, is ignored and no task changes; otherwise the kill of the old child if running, the stop events, if running, then the start events, recorded by the task and relayed in that order; the task then runs exactly when spawn succeeded and holds the child spawned (its previous one when spawn threw); its matcher is kept |
| TaskServer.Server.OnProcessError | src/core/server.ts:159-165 | for any wired task, closed or not, an `error` is recorded and relayed with the error text, followed by `stop` if the task was running; the task ends idle; only its trace and running flag may change, so its child and matcher are kept |
| TaskServer.Server.OnProcessExit | src/core/server.ts:167 | for any wired task, closed or not, an `exit` is recorded and relayed with the code, followed by `stop` if the task was running; the task ends idle; only its trace and running flag may change, so its child and matcher are kept |
| TaskServer.Server.OnOutput | src/core/server.ts:169-181 | for any wired task, closed or not, a chunk of output is recorded and relayed as one HTML broadcast with the task's id on the same stream; only the task's trace may change, so its running state, child and matcher are kept |
| TaskServer.Server.OnProblemsUpdate | src/core/server.ts:183 | a matcher update of any wired task, closed or not, is recorded as `problems-update` with the running state kept, broadcasts nothing, and writes the whole report of the matchers of the tasks in the map, in map order, to standard output; only the task's trace and matcher may change, so its child is kept |
| TaskServer.Server.UpdateMatcher | src/core/server.ts:183 | the task's matcher keeps its owner and takes the new problems; the task records `problems-update`, keeps its running state, and nothing is relayed; only the task's trace and matcher may change, so its child is kept |
| TaskServer.Server.WriteProblems | src/core/server.ts:119-153 | standard output grows by exactly the report of the tasks' matchers in map order |
| TaskServer.Server.Initialize | src/core/server.ts:231-244 | the snapshot holds the configured task names and groups, and one row per task in map order with its id, name, line and running state |
| CommandDisplay.AssignDisplays | cli/biu.js:32-43 | every command's `display` becomes the display of its command and arguments |
| CommandDisplay.QuoteAll | cli/biu.js:35-42 | each part is mapped on its own, in order |
| CommandDisplay.Parts | cli/biu.js:33-34 | the command first, then the arguments, or none when absent |
| CommandDisplay.PlainPartUnchanged | cli/biu.js:36-40 | a part with no white space and no quote is shown as it is |
| CommandDisplay.QuotedPartShape | cli/biu.js:36-38 | a quoted part starts and ends with a quote and is two characters longer, plus one per inner quote |
| CommandDisplay.UndoubleDoubleQuotes | cli/biu.js:37 | doubling the quotes can be undone |
| CommandDisplay.ParseJoinQuoted | cli/biu.js:35-42 | the joined, quoted parts parse back into exactly those parts |
| CommandDisplay.DisplayRoundTrip | cli/biu.js:33-42 | the display parses back into the command followed by its arguments |
| CommandDisplay.JoinSeparators | cli/biu.js:42 | the display holds the parts' own spaces plus exactly one between neighbours |
| CommandDisplay.JoinLength | cli/biu.js:42 | the display's length is the parts' lengths plus one per separator |

## Left out

- Child processes, signals, `taskkill`, pipes to the server's own standard streams (`stdout`/`stderr` options) and the search-path lookup are not modelled. What they decide is an input (`SpawnOutcome`, `Termination`, `Platform`, the `which` result).
- `shell-escape` and the ANSI-to-HTML converter are uninterpreted functions. Nothing is proved about their output.
- HTTP, express, socket.io and `listen` are not modelled. A broadcast to the room is appended to `room`; a socket command is a call of its method; a viewer's `initialize` message is the result of `Initialize`.
- TaskServer.Server.CloseAll: the source closes all tasks concurrently (`v.parallel`), so their broadcasts may interleave. The model closes them one after another in map order.
- The problem matcher engine is not modelled. A task's matcher is its owner and current problems, and an update replaces the problems. `src/core/task.ts` in this form does not hold the matcher. The model keeps it on the task, as `server.ts` reads it at line 122 and passes it at line 78.
- A process's `error` and `exit` may each arrive whenever the model allows them, also after the task was closed. The once-only listeners are not tracked.
- TaskServer.Server.Create: a name missing from the configuration makes the source throw a TypeError after `++lastTaskId`. The model returns `false` at that point and keeps the id used up; the earlier tasks stay created. The rejection of the returned promise is not modelled.
- JavaScript's prototype-chain lookups in `config.tasks[name]` and `problemMatcherDict[name]` are not modelled. The configuration is a list of own entries.
- The invariant does not include what a viewer that saw every broadcast shows. The Room lemmas (`CreateListed`, `CloseListed`, `RelayListed`) state how each broadcast changes that list, but the Server does not carry the list as an invariant.
- The command handlers are atomic in the model. In the source each `async` handler yields at its `await`s (`src/core/server.ts` lines 56, 107 and 189-199, `src/core/task.ts` lines 91 and 96), so handlers can interleave: two `close` calls for one id, a `close` during a `restart`, a viewer connecting in the middle of a `create`. The model runs each handler to completion before the next.
- TaskServer.Server.UseId: `lastTaskId` is a JavaScript number, so past 2^53 `++` stops changing it and ids would repeat (`src/core/server.ts` line 62). The model's counter is unbounded, and ids never repeat.
- TaskServer.Server.Close: `stopWait` waits for the process's `stop` event, so `close` and `closeAll` never complete if a killed process never reports its end. The model takes the process's report as the `Termination` input, which always arrives.
- The rest of `cli/biu.js` (its own server and executors) and `src/client` are not part of this model.
- `Error` objects are modelled as their `stack` and `message`. `${error}` for other thrown values is given as text.
