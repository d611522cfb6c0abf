/**
 * The broadcasts the server sends to the `biu` room (src/core/server.ts), and
 * what a viewer that has seen every broadcast since the server started knows
 * about the created tasks: `Replay` folds the broadcasts into a list of task
 * views, the same shape as the `createdTasks` of the `initialize` snapshot.
 */
module Room {
  import opened Common
  import opened Tasks

  datatype Broadcast =
    | Created(id: string, name: string, line: string)
    | Closed(id: string)
    | Started(id: string)
    | Stopped(id: string)
    | Failed(id: string, error: string)
    | ExitCode(id: string, code: Option<int>)
    | StdoutHtml(id: string, html: string)
    | StderrHtml(id: string, html: string)

  /** `error.stack || error.message` for an Error object, the value as text otherwise. */
  function ErrorText(e: ErrorValue): string {
    match e
    case ErrorObject(stack, message) => if stack != "" then stack else message
    case Thrown(text) => text
  }

  /** The broadcasts the listeners wired by `initializeTask` send for one task event. */
  function RelayOne(id: string, e: Event, toHtml: string -> string): seq<Broadcast> {
    match e
    case Start => [Started(id)]
    case Stop => [Stopped(id)]
    case Error(err) => [Failed(id, ErrorText(err))]
    case Exit(code) => [ExitCode(id, code)]
    case Stdout(data) => [StdoutHtml(id, toHtml(data))]
    case Stderr(data) => [StderrHtml(id, toHtml(data))]
    case ProblemsUpdate => []
  }

  /**
   * The broadcasts for a run of task events: every one carries the task's id, and none
   * is a `create` or a `close`, which only the server itself sends.
   */
  function Relay(id: string, evs: seq<Event>, toHtml: string -> string): (r: seq<Broadcast>)
    ensures forall i :: 0 <= i < |r| ==> r[i].id == id && !r[i].Created? && !r[i].Closed?
    ensures |r| <= |evs|
  {
    if evs == [] then []
    else Relay(id, evs[..|evs| - 1], toHtml) + RelayOne(id, evs[|evs| - 1], toHtml)
  }

  /** A chunk of output is relayed as one HTML broadcast on the same stream. */
  lemma RelayOutput(id: string, toStderr: bool, data: string, toHtml: string -> string)
    ensures Relay(id, [if toStderr then Stderr(data) else Stdout(data)], toHtml)
         == [if toStderr then StderrHtml(id, toHtml(data)) else StdoutHtml(id, toHtml(data))]
  {
    assert [if toStderr then Stderr(data) else Stdout(data)][..0] == [];
  }

  /** A problems update is not relayed. */
  lemma RelayProblemsUpdate(id: string, toHtml: string -> string)
    ensures Relay(id, [ProblemsUpdate], toHtml) == []
  {
    assert [ProblemsUpdate][..0] == [];
  }

  /** The ids announced by `create` broadcasts. */
  function CreatedIds(log: seq<Broadcast>): set<string> {
    set i | 0 <= i < |log| && log[i].Created? :: log[i].id
  }

  lemma {:induction false} CreatedIdsConcat(a: seq<Broadcast>, b: seq<Broadcast>)
    ensures CreatedIds(a + b) == CreatedIds(a) + CreatedIds(b)
  {
    var ab := a + b;
    forall x | x in CreatedIds(a) ensures x in CreatedIds(ab) {
      var i :| 0 <= i < |a| && a[i].Created? && a[i].id == x;
      assert ab[i] == a[i];
    }
    forall x | x in CreatedIds(ab) ensures x in CreatedIds(a) + CreatedIds(b) {
      var i :| 0 <= i < |ab| && ab[i].Created? && ab[i].id == x;
      if i >= |a| {
        assert b[i - |a|] == ab[i];
      }
    }
    forall x | x in CreatedIds(b) ensures x in CreatedIds(ab) {
      var i :| 0 <= i < |b| && b[i].Created? && b[i].id == x;
      assert ab[i + |a|] == b[i];
    }
  }

  /** Relayed task events announce no task. */
  lemma {:induction false} CreatedIdsRelay(log: seq<Broadcast>, id: string, evs: seq<Event>,
                                           toHtml: string -> string)
    ensures CreatedIds(log + Relay(id, evs, toHtml)) == CreatedIds(log)
  {
    var bs := Relay(id, evs, toHtml);
    CreatedIdsConcat(log, bs);
    assert CreatedIds(bs) == {};
  }

  // ---------------------------------------------------------------------------
  // What a viewer sees

  datatype TaskView = TaskView(id: string, name: string, line: string, running: bool)

  function SetRunning(vs: seq<TaskView>, id: string, running: bool): (r: seq<TaskView>)
    ensures |r| == |vs|
    ensures forall i :: 0 <= i < |vs| ==> r[i] == if vs[i].id == id then vs[i].(running := running) else vs[i]
  {
    if vs == [] then []
    else
      var n := |vs| - 1;
      SetRunning(vs[..n], id, running) + [if vs[n].id == id then vs[n].(running := running) else vs[n]]
  }

  function Without(vs: seq<TaskView>, id: string): seq<TaskView> {
    if vs == [] then []
    else
      var n := |vs| - 1;
      Without(vs[..n], id) + (if vs[n].id == id then [] else [vs[n]])
  }

  /** A viewer's update for one broadcast; output broadcasts change no view. */
  function Apply(vs: seq<TaskView>, b: Broadcast): seq<TaskView> {
    match b
    case Created(id, name, line) => vs + [TaskView(id, name, line, false)]
    case Closed(id) => Without(vs, id)
    case Started(id) => SetRunning(vs, id, true)
    case Stopped(id) => SetRunning(vs, id, false)
    case _ => vs
  }

  function ApplyAll(vs: seq<TaskView>, log: seq<Broadcast>): seq<TaskView> {
    if log == [] then vs else Apply(ApplyAll(vs, log[..|log| - 1]), log[|log| - 1])
  }

  /** The task list of a viewer that has seen all of `log`. */
  function Replay(log: seq<Broadcast>): seq<TaskView> {
    ApplyAll([], log)
  }

  lemma {:induction false} ApplyAllConcat(vs: seq<TaskView>, a: seq<Broadcast>, b: seq<Broadcast>)
    ensures ApplyAll(vs, a + b) == ApplyAll(ApplyAll(vs, a), b)
  {
    if b == [] {
      assert a + b == a;
    } else {
      var c := b[..|b| - 1];
      ApplyAllConcat(vs, a, c);
      assert (a + b)[..|a + b| - 1] == a + c;
    }
  }

  lemma {:induction false} SetRunningTwice(vs: seq<TaskView>, id: string, a: bool, b: bool)
    ensures SetRunning(SetRunning(vs, id, a), id, b) == SetRunning(vs, id, b)
  {
  }

  lemma {:induction false} SetRunningSame(vs: seq<TaskView>, id: string, running: bool)
    requires forall i :: 0 <= i < |vs| && vs[i].id == id ==> vs[i].running == running
    ensures SetRunning(vs, id, running) == vs
  {
    var r := SetRunning(vs, id, running);
    assert forall i :: 0 <= i < |vs| ==> r[i] == vs[i];
  }

  lemma {:induction false} ApplyOne(vs: seq<TaskView>, b: Broadcast)
    ensures ApplyAll(vs, [b]) == Apply(vs, b)
  {
    assert [b][..0] == [];
  }

  /** The view update for one task event: `start` and `stop` set `running`, others change nothing. */
  lemma {:induction false} RelayOneViews(vs: seq<TaskView>, id: string, e: Event, running: bool, toHtml: string -> string)
    requires forall i :: 0 <= i < |vs| && vs[i].id == id ==> vs[i].running == running
    ensures ApplyAll(vs, RelayOne(id, e, toHtml))
         == SetRunning(vs, id, if e.Start? then true else if e.Stop? then false else running)
  {
    SetRunningSame(vs, id, running);
    var one := RelayOne(id, e, toHtml);
    if one != [] {
      ApplyOne(vs, one[0]);
    }
  }

  /**
   * Relaying a task's events to a viewer changes only that task's `running`, and to
   * whether the task is running after those events.
   */
  lemma {:induction false} RelayViews(vs: seq<TaskView>, id: string, evs: seq<Event>, running: bool,
                                      toHtml: string -> string)
    requires forall i :: 0 <= i < |vs| && vs[i].id == id ==> vs[i].running == running
    ensures ApplyAll(vs, Relay(id, evs, toHtml)) == SetRunning(vs, id, RunningAfter(running, evs))
  {
    if evs == [] {
      SetRunningSame(vs, id, running);
    } else {
      var init := evs[..|evs| - 1];
      var e := evs[|evs| - 1];
      var before := RunningAfter(running, init);
      var after := if e.Start? then true else if e.Stop? then false else before;
      RelayViews(vs, id, init, running, toHtml);
      ApplyAllConcat(vs, Relay(id, init, toHtml), RelayOne(id, e, toHtml));
      RelayOneViews(SetRunning(vs, id, before), id, e, before, toHtml);
      SetRunningTwice(vs, id, before, after);
      assert RunningAfter(running, evs) == after;
    }
  }

  /** A newly created task that then runs through `evs` appears last, with its `running`. */
  lemma {:induction false} CreateViews(vs: seq<TaskView>, id: string, name: string, line: string, evs: seq<Event>,
                                      toHtml: string -> string)
    requires forall i :: 0 <= i < |vs| ==> vs[i].id != id
    ensures ApplyAll(vs, [Created(id, name, line)] + Relay(id, evs, toHtml))
         == vs + [TaskView(id, name, line, RunningAfter(false, evs))]
  {
    var created := vs + [TaskView(id, name, line, false)];
    ApplyAllConcat(vs, [Created(id, name, line)], Relay(id, evs, toHtml));
    ApplyOne(vs, Created(id, name, line));
    RelayViews(created, id, evs, false, toHtml);
    var r := SetRunning(created, id, RunningAfter(false, evs));
    assert r == vs + [TaskView(id, name, line, RunningAfter(false, evs))];
  }

  /**
   * Closing a task removes its view and nothing else: when `vs` lists the views `rows`
   * gives to the ids `ks`, the views left are those of the ids left.
   */
  lemma {:induction false} WithoutMatches(vs: seq<TaskView>, ks: seq<string>, id: string,
                                          rows: map<string, TaskView>)
    requires |vs| == |ks|
    requires forall i :: 0 <= i < |ks| ==> ks[i] in rows && vs[i] == rows[ks[i]] && vs[i].id == ks[i]
    ensures |Without(vs, id)| == |RemoveKey(ks, id)|
    ensures forall j :: 0 <= j < |RemoveKey(ks, id)| ==>
      RemoveKey(ks, id)[j] in rows && Without(vs, id)[j] == rows[RemoveKey(ks, id)[j]]
  {
    if ks != [] {
      var n := |ks| - 1;
      WithoutMatches(vs[..n], ks[..n], id, rows);
    }
  }

  /** Each row of the table is stored under its own id. */
  predicate Keyed(rows: map<string, TaskView>) {
    forall k :: k in rows ==> rows[k].id == k
  }

  /** `vs` lists the rows of the ids `ks`, in that order. */
  predicate Listed(vs: seq<TaskView>, ks: seq<string>, rows: map<string, TaskView>) {
    && |vs| == |ks|
    && forall i :: 0 <= i < |ks| ==> ks[i] in rows && vs[i] == rows[ks[i]]
  }

  /** Relaying a task's events updates its row's `running`, and nothing else. */
  lemma {:induction false} RelayListed(log: seq<Broadcast>, ks: seq<string>, rows: map<string, TaskView>,
                                       id: string, evs: seq<Event>, toHtml: string -> string)
    requires Keyed(rows) && Listed(Replay(log), ks, rows) && id in rows
    ensures Listed(Replay(log + Relay(id, evs, toHtml)), ks,
                   rows[id := rows[id].(running := RunningAfter(rows[id].running, evs))])
  {
    var vs := Replay(log);
    ApplyAllConcat([], log, Relay(id, evs, toHtml));
    RelayViews(vs, id, evs, rows[id].running, toHtml);
  }

  /** A `close` broadcast removes the task's row. */
  lemma {:induction false} CloseListed(log: seq<Broadcast>, ks: seq<string>, rows: map<string, TaskView>,
                                       id: string)
    requires Keyed(rows) && Listed(Replay(log), ks, rows)
    ensures Listed(Replay(log + [Closed(id)]), RemoveKey(ks, id), rows - {id})
  {
    var vs := Replay(log);
    ApplyAllConcat([], log, [Closed(id)]);
    ApplyOne(vs, Closed(id));
    WithoutMatches(vs, ks, id, rows);
    var left := RemoveKey(ks, id);
    forall j | 0 <= j < |left| ensures left[j] in rows - {id} && Without(vs, id)[j] == (rows - {id})[left[j]] {
      assert left[j] in left;
    }
  }

  /** A `create` broadcast and the new task's events add its row last. */
  lemma {:induction false} CreateListed(log: seq<Broadcast>, ks: seq<string>, rows: map<string, TaskView>,
                                        id: string, name: string, line: string, evs: seq<Event>,
                                        toHtml: string -> string)
    requires Keyed(rows) && Listed(Replay(log), ks, rows) && id !in rows
    ensures Listed(Replay(log + ([Created(id, name, line)] + Relay(id, evs, toHtml))), ks + [id],
                   rows[id := TaskView(id, name, line, RunningAfter(false, evs))])
  {
    var vs := Replay(log);
    ApplyAllConcat([], log, [Created(id, name, line)] + Relay(id, evs, toHtml));
    CreateViews(vs, id, name, line, evs, toHtml);
  }

  /** The keys of a JavaScript Map in insertion order after `delete(id)`. */
  function RemoveKey(ks: seq<string>, id: string): (r: seq<string>)
    ensures forall k :: k in r <==> k in ks && k != id
    ensures |r| <= |ks|
  {
    if ks == [] then []
    else
      var n := |ks| - 1;
      assert ks == ks[..n] + [ks[n]];
      RemoveKey(ks[..n], id) + (if ks[n] == id then [] else [ks[n]])
  }

  lemma {:induction false} RemoveKeyDistinct(ks: seq<string>, id: string)
    requires Distinct(ks)
    ensures Distinct(RemoveKey(ks, id))
  {
    if ks != [] {
      var n := |ks| - 1;
      RemoveKeyDistinct(ks[..n], id);
      var rest := RemoveKey(ks[..n], id);
      assert ks[n] !in rest by {
        assert ks[n] !in ks[..n];
      }
    }
  }

  lemma {:induction false} RemoveKeyFirst(ks: seq<string>)
    requires Distinct(ks) && ks != []
    ensures RemoveKey(ks, ks[0]) == ks[1..]
  {
    var n := |ks| - 1;
    if n > 0 {
      RemoveKeyFirst(ks[..n]);
      assert ks[n] != ks[0];
      assert ks[1..] == ks[..n][1..] + [ks[n]];
    }
  }
}
