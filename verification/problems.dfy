/**
 * The problems report the server writes to its own standard output whenever a
 * task's problem matcher signals an update (src/core/server.ts, outputProblems).
 *
 * Every task that has a matcher contributes its owner; owners are reported in
 * the order in which they first appear among the tasks (a JavaScript Map keeps
 * insertion order). Each problem is formatted as
 * `severity;file;location;code;message`; within an owner a formatted line is
 * kept once, at its first appearance (a JavaScript Set). Each owner's block is a
 * begin marker, one marker per line, and an end marker.
 */
module Problems {
  import opened Common

  datatype Problem = Problem(severity: string, file: string, location: string, code: string, message: string)

  /** What the server reads from a task's matcher: its owner and its current problems. */
  datatype MatcherState = MatcherState(owner: string, problems: seq<Problem>)

  /** `[severity, file, location, code, message].join(';')` */
  function Format(p: Problem): string {
    p.severity + ";" + p.file + ";" + p.location + ";" + p.code + ";" + p.message
  }

  function BeginMarker(owner: string): string { "[biu-problems;" + owner + ";begin]\n" }
  function ProblemMarker(line: string): string { "[biu-problem;" + line + "]\n" }
  function EndMarker(owner: string): string { "[biu-problems;" + owner + ";end]\n" }

  /** True when task `i` has a matcher with owner `owner`. */
  predicate OwnedBy(ms: seq<Option<MatcherState>>, i: int, owner: string)
    requires 0 <= i < |ms|
  {
    ms[i].Some? && ms[i].value.owner == owner
  }

  /** Owners in order of first appearance. */
  function Owners(ms: seq<Option<MatcherState>>): seq<string> {
    if ms == [] then []
    else
      var prev := Owners(ms[..|ms| - 1]);
      var last := ms[|ms| - 1];
      if last.Some? && last.value.owner !in prev then prev + [last.value.owner] else prev
  }

  function Formats(ps: seq<Problem>): (r: seq<string>)
    ensures |r| == |ps|
  {
    if ps == [] then [] else Formats(ps[..|ps| - 1]) + [Format(ps[|ps| - 1])]
  }

  /** The formatted lines one task contributes to `owner`. */
  function TaskLines(m: Option<MatcherState>, owner: string): seq<string> {
    if m.Some? && m.value.owner == owner then Formats(m.value.problems) else []
  }

  /** Every formatted line reported for `owner`, repeats included, task by task. */
  function AllLines(ms: seq<Option<MatcherState>>, owner: string): seq<string> {
    if ms == [] then [] else AllLines(ms[..|ms| - 1], owner) + TaskLines(ms[|ms| - 1], owner)
  }

  /** Keeps the first occurrence of every element (insertion into a Set). */
  function Dedup(xs: seq<string>): seq<string> {
    if xs == [] then []
    else
      var prev := Dedup(xs[..|xs| - 1]);
      if xs[|xs| - 1] in prev then prev else prev + [xs[|xs| - 1]]
  }

  /** The distinct lines reported under `owner`. */
  function LinesOf(ms: seq<Option<MatcherState>>, owner: string): seq<string> {
    Dedup(AllLines(ms, owner))
  }

  function Markers(lines: seq<string>): (r: seq<string>)
    ensures |r| == |lines|
  {
    if lines == [] then [] else Markers(lines[..|lines| - 1]) + [ProblemMarker(lines[|lines| - 1])]
  }

  function Block(owner: string, lines: seq<string>): seq<string> {
    [BeginMarker(owner)] + Markers(lines) + [EndMarker(owner)]
  }

  function Blocks(owners: seq<string>, ms: seq<Option<MatcherState>>): seq<string> {
    if owners == [] then []
    else
      var o := owners[|owners| - 1];
      Blocks(owners[..|owners| - 1], ms) + Block(o, LinesOf(ms, o))
  }

  /** The whole report for the tasks' matchers, in task order (`None`: no matcher). */
  function Report(ms: seq<Option<MatcherState>>): seq<string> {
    Blocks(Owners(ms), ms)
  }

  // ---------------------------------------------------------------------------
  // The imperative computation, as the server does it

  /** Adds the formatted problems of one task to an owner's line set, one by one. */
  method AddProblems(lineSet: seq<string>, ghost before: seq<string>, problems: seq<Problem>)
    returns (result: seq<string>)
    requires lineSet == Dedup(before)
    ensures result == Dedup(before + Formats(problems))
  {
    result := lineSet;
    assert before + Formats(problems[..0]) == before;
    for j := 0 to |problems|
      invariant result == Dedup(before + Formats(problems[..j]))
    {
      var line := Format(problems[j]);
      var prefix := before + Formats(problems[..j]);
      DedupMembers(prefix);
      assert problems[..j + 1][..j] == problems[..j];
      var next := before + Formats(problems[..j + 1]);
      assert next == prefix + [line];
      assert next[..|next| - 1] == prefix;
      if line !in result {
        result := result + [line];
      }
    }
    assert problems[..|problems|] == problems;
  }

  /** Writes one owner's block: begin marker, one marker per line, end marker. */
  method WriteBlock(owner: string, lines: seq<string>) returns (block: seq<string>)
    ensures block == Block(owner, lines)
  {
    block := [BeginMarker(owner)];
    for j := 0 to |lines|
      invariant block == [BeginMarker(owner)] + Markers(lines[..j])
    {
      assert lines[..j + 1][..j] == lines[..j];
      block := block + [ProblemMarker(lines[j])];
    }
    assert lines[..|lines|] == lines;
    block := block + [EndMarker(owner)];
  }

  /** The owner-to-lines table after the first `i` tasks: `owners` is its key order. */
  ghost predicate Collected(ms: seq<Option<MatcherState>>, i: nat, owners: seq<string>,
                            lineSetMap: map<string, seq<string>>)
    requires i <= |ms|
  {
    && owners == Owners(ms[..i])
    && (forall o :: o in lineSetMap <==> o in owners)
    && (forall o :: o in lineSetMap ==> lineSetMap[o] == LinesOf(ms[..i], o))
  }

  /** The first half of the server's loop: fills the owner-to-lines table task by task.
      `owners` is the table's key order. */
  method CollectLines(ms: seq<Option<MatcherState>>)
    returns (owners: seq<string>, lineSetMap: map<string, seq<string>>)
    ensures owners == Owners(ms)
    ensures forall o :: o in lineSetMap <==> o in owners
    ensures forall o :: o in lineSetMap ==> lineSetMap[o] == LinesOf(ms, o)
  {
    lineSetMap := map[];
    owners := [];
    for i := 0 to |ms|
      invariant Collected(ms, i, owners, lineSetMap)
    {
      owners, lineSetMap := CollectTask(ms, i, owners, lineSetMap);
    }
    assert ms[..|ms|] == ms;
  }

  /** One pass of that loop: task `i`'s matcher, if any, adds its owner and its lines. */
  method CollectTask(ms: seq<Option<MatcherState>>, i: nat, owners: seq<string>,
                     lineSetMap: map<string, seq<string>>)
    returns (owners': seq<string>, lineSetMap': map<string, seq<string>>)
    requires i < |ms| && Collected(ms, i, owners, lineSetMap)
    ensures Collected(ms, i + 1, owners', lineSetMap')
  {
    if ms[i].None? {
      CollectedSkip(ms, i, owners, lineSetMap);
      return owners, lineSetMap;
    }
    var matcher := ms[i].value;
    var o := matcher.owner;
    var lineSet;
    if o in lineSetMap {
      lineSet := lineSetMap[o];
    } else {
      OwnerlessHasNoLines(ms[..i], o);
      lineSet := [];
    }
    lineSet := AddProblems(lineSet, AllLines(ms[..i], o), matcher.problems);
    owners' := if o in lineSetMap then owners else owners + [o];
    lineSetMap' := lineSetMap[o := lineSet];
    CollectedAdd(ms, i, owners, lineSetMap, lineSet);
  }

  /** A task without a matcher leaves the table as it is. */
  lemma CollectedSkip(ms: seq<Option<MatcherState>>, i: nat, owners: seq<string>,
                      lineSetMap: map<string, seq<string>>)
    requires i < |ms| && ms[i].None? && Collected(ms, i, owners, lineSetMap)
    ensures Collected(ms, i + 1, owners, lineSetMap)
  {
    PrefixStep(ms, i);
    forall o | o in lineSetMap ensures lineSetMap[o] == LinesOf(ms[..i + 1], o) {
      AllLinesStep(ms, i, o);
      assert AllLines(ms[..i], o) + [] == AllLines(ms[..i], o);
    }
  }

  /** A task with a matcher adds its owner, if new, and its lines to that owner's. */
  lemma CollectedAdd(ms: seq<Option<MatcherState>>, i: nat, owners: seq<string>,
                     lineSetMap: map<string, seq<string>>, lineSet: seq<string>)
    requires i < |ms| && ms[i].Some? && Collected(ms, i, owners, lineSetMap)
    requires lineSet == Dedup(AllLines(ms[..i], ms[i].value.owner) + Formats(ms[i].value.problems))
    ensures var o := ms[i].value.owner;
      Collected(ms, i + 1, if o in lineSetMap then owners else owners + [o], lineSetMap[o := lineSet])
  {
    PrefixStep(ms, i);
    AddedLines(ms, i, lineSetMap, lineSet);
  }

  lemma AddedLines(ms: seq<Option<MatcherState>>, i: nat, lineSetMap: map<string, seq<string>>, lineSet: seq<string>)
    requires i < |ms| && ms[i].Some?
    requires forall o :: o in lineSetMap ==> lineSetMap[o] == LinesOf(ms[..i], o)
    requires lineSet == Dedup(AllLines(ms[..i], ms[i].value.owner) + Formats(ms[i].value.problems))
    ensures var m := lineSetMap[ms[i].value.owner := lineSet];
      forall o :: o in m ==> m[o] == LinesOf(ms[..i + 1], o)
  {
    var o := ms[i].value.owner;
    AllLinesStep(ms, i, o);
    forall o' | o' in lineSetMap && o' != o ensures lineSetMap[o'] == LinesOf(ms[..i + 1], o') {
      AllLinesStep(ms, i, o');
      assert AllLines(ms[..i], o') + [] == AllLines(ms[..i], o');
    }
  }

  /** The whole of outputProblems: collects the lines, then writes one block per owner;
      returns the text written, one element per write. */
  method OutputProblems(ms: seq<Option<MatcherState>>) returns (out: seq<string>)
    ensures out == Report(ms)
  {
    var owners, lineSetMap := CollectLines(ms);
    out := [];
    for k := 0 to |owners|
      invariant out == Blocks(owners[..k], ms)
    {
      BlocksStep(owners, k, ms);
      var block := WriteBlock(owners[k], lineSetMap[owners[k]]);
      out := out + block;
    }
    assert owners[..|owners|] == owners;
  }

  // ---------------------------------------------------------------------------
  // Properties of the report

  lemma BlocksStep(owners: seq<string>, k: nat, ms: seq<Option<MatcherState>>)
    requires k < |owners|
    ensures Blocks(owners[..k + 1], ms) == Blocks(owners[..k], ms) + Block(owners[k], LinesOf(ms, owners[k]))
  {
    assert owners[..k + 1][..k] == owners[..k];
  }

  /** How one more task changes the owners. */
  lemma PrefixStep(ms: seq<Option<MatcherState>>, i: nat)
    requires i < |ms|
    ensures Owners(ms[..i + 1]) ==
      if ms[i].Some? && ms[i].value.owner !in Owners(ms[..i])
      then Owners(ms[..i]) + [ms[i].value.owner] else Owners(ms[..i])
  {
    assert ms[..i + 1][..i] == ms[..i];
  }

  /** How one more task changes the lines collected for `owner`. */
  lemma AllLinesStep(ms: seq<Option<MatcherState>>, i: nat, owner: string)
    requires i < |ms|
    ensures AllLines(ms[..i + 1], owner) == AllLines(ms[..i], owner) + TaskLines(ms[i], owner)
  {
    assert ms[..i + 1][..i] == ms[..i];
  }

  lemma {:induction false} DedupMembers(xs: seq<string>)
    ensures forall x :: x in Dedup(xs) <==> x in xs
  {
    if xs != [] {
      DedupMembers(xs[..|xs| - 1]);
      assert xs == xs[..|xs| - 1] + [xs[|xs| - 1]];
    }
  }

  /** A Set never holds a line twice. */
  lemma {:induction false} DedupDistinct(xs: seq<string>)
    ensures Distinct(Dedup(xs))
  {
    if xs != [] {
      DedupDistinct(xs[..|xs| - 1]);
    }
  }

  lemma {:induction false} OwnerlessHasNoLines(ms: seq<Option<MatcherState>>, owner: string)
    requires owner !in Owners(ms)
    ensures AllLines(ms, owner) == []
  {
    if ms != [] {
      OwnerlessHasNoLines(ms[..|ms| - 1], owner);
    }
  }

  /** Owners are exactly the owners of the tasks that have a matcher, each once. */
  lemma {:induction false} OwnersExact(ms: seq<Option<MatcherState>>)
    ensures Distinct(Owners(ms))
    ensures forall o :: o in Owners(ms) <==> exists i :: 0 <= i < |ms| && OwnedBy(ms, i, o)
  {
    if ms != [] {
      var init := ms[..|ms| - 1];
      OwnersExact(init);
      forall o ensures o in Owners(ms) <==> exists i :: 0 <= i < |ms| && OwnedBy(ms, i, o) {
        if o in Owners(ms) && o !in Owners(init) {
          assert OwnedBy(ms, |ms| - 1, o);
        }
        if o in Owners(init) {
          var i :| 0 <= i < |init| && OwnedBy(init, i, o);
          assert OwnedBy(ms, i, o);
        }
        if exists i :: 0 <= i < |ms| && OwnedBy(ms, i, o) {
          var i :| 0 <= i < |ms| && OwnedBy(ms, i, o);
          if i < |init| {
            assert OwnedBy(init, i, o);
          }
        }
      }
    }
  }

  lemma {:induction false} FormatsMembers(ps: seq<Problem>)
    ensures forall l :: l in Formats(ps) <==> exists k :: 0 <= k < |ps| && Format(ps[k]) == l
  {
    if ps != [] {
      var init := ps[..|ps| - 1];
      FormatsMembers(init);
      forall l ensures l in Formats(ps) <==> exists k :: 0 <= k < |ps| && Format(ps[k]) == l {
        if l in Formats(init) {
          var k :| 0 <= k < |init| && Format(init[k]) == l;
          assert Format(ps[k]) == l;
        }
        if exists k :: 0 <= k < |ps| && Format(ps[k]) == l {
          var k :| 0 <= k < |ps| && Format(ps[k]) == l;
          if k < |init| {
            assert Format(init[k]) == l;
          }
        }
      }
    }
  }

  /** Some task whose matcher has owner `owner` has a problem that formats to `l`. */
  ghost predicate Reported(ms: seq<Option<MatcherState>>, owner: string, l: string) {
    exists i, k :: 0 <= i < |ms| && OwnedBy(ms, i, owner)
      && 0 <= k < |ms[i].value.problems| && Format(ms[i].value.problems[k]) == l
  }

  /** A line is reported under `owner` exactly when some task whose matcher has that owner
      has a problem that formats to it, whichever task it is. */
  lemma {:induction false} LinesOfExact(ms: seq<Option<MatcherState>>, owner: string)
    ensures Distinct(LinesOf(ms, owner))
    ensures forall l :: l in LinesOf(ms, owner) <==> Reported(ms, owner, l)
  {
    DedupDistinct(AllLines(ms, owner));
    DedupMembers(AllLines(ms, owner));
    AllLinesMembers(ms, owner);
  }

  lemma {:induction false} AllLinesMembers(ms: seq<Option<MatcherState>>, owner: string)
    ensures forall l :: l in AllLines(ms, owner) <==> Reported(ms, owner, l)
  {
    if ms != [] {
      var init := ms[..|ms| - 1];
      AllLinesMembers(init, owner);
      forall l ensures l in AllLines(ms, owner) <==> Reported(ms, owner, l) {
        ReportedLast(ms, owner, l);
      }
    }
  }

  /** The last task adds exactly its own lines to what the others report. */
  lemma ReportedLast(ms: seq<Option<MatcherState>>, owner: string, l: string)
    requires ms != []
    ensures Reported(ms, owner, l) <==> Reported(ms[..|ms| - 1], owner, l) || l in TaskLines(ms[|ms| - 1], owner)
  {
    var init := ms[..|ms| - 1];
    var n := |ms| - 1;
    if ms[n].Some? {
      FormatsMembers(ms[n].value.problems);
    }
    if Reported(init, owner, l) {
      var i, k :| 0 <= i < |init| && OwnedBy(init, i, owner)
        && 0 <= k < |init[i].value.problems| && Format(init[i].value.problems[k]) == l;
      assert OwnedBy(ms, i, owner) && ms[i] == init[i];
    }
    if l in TaskLines(ms[n], owner) {
      var k :| 0 <= k < |ms[n].value.problems| && Format(ms[n].value.problems[k]) == l;
      assert OwnedBy(ms, n, owner);
    }
    if Reported(ms, owner, l) {
      var i, k :| 0 <= i < |ms| && OwnedBy(ms, i, owner)
        && 0 <= k < |ms[i].value.problems| && Format(ms[i].value.problems[k]) == l;
      if i < n {
        assert OwnedBy(init, i, owner) && ms[i] == init[i];
      }
    }
  }

  /** A task without a matcher added last contributes nothing. */
  lemma NoMatcherLast(ms: seq<Option<MatcherState>>)
    ensures Owners(ms + [None]) == Owners(ms)
    ensures forall o :: AllLines(ms + [None], o) == AllLines(ms, o)
  {
    assert (ms + [None])[..|ms|] == ms;
  }

  /** A task without a matcher contributes nothing, wherever it stands among the tasks:
      no owner, no line and no change to the report. */
  lemma {:induction false} NoMatcherContributesNothing(before: seq<Option<MatcherState>>, after: seq<Option<MatcherState>>)
    ensures Owners(before + [None] + after) == Owners(before + after)
    ensures forall o :: LinesOf(before + [None] + after, o) == LinesOf(before + after, o)
    ensures Report(before + [None] + after) == Report(before + after)
  {
    NoMatcherAllLines(before, after);
    BlocksCongruent(Owners(before + after), before + [None] + after, before + after);
  }

  lemma {:induction false} NoMatcherAllLines(before: seq<Option<MatcherState>>, after: seq<Option<MatcherState>>)
    ensures Owners(before + [None] + after) == Owners(before + after)
    ensures forall o :: AllLines(before + [None] + after, o) == AllLines(before + after, o)
  {
    if after == [] {
      assert before + [None] + after == before + [None];
      assert before + after == before;
      NoMatcherLast(before);
    } else {
      var init := after[..|after| - 1];
      NoMatcherAllLines(before, init);
      var a, b := before + [None] + after, before + after;
      assert a[..|a| - 1] == before + [None] + init && a[|a| - 1] == after[|after| - 1];
      assert b[..|b| - 1] == before + init && b[|b| - 1] == after[|after| - 1];
    }
  }

  lemma {:induction false} BlocksCongruent(owners: seq<string>, a: seq<Option<MatcherState>>, b: seq<Option<MatcherState>>)
    requires forall o :: LinesOf(a, o) == LinesOf(b, o)
    ensures Blocks(owners, a) == Blocks(owners, b)
  {
    if owners != [] {
      BlocksCongruent(owners[..|owners| - 1], a, b);
    }
  }

  /** Reporting the same problem twice, from the same task or another one with the same
      owner, yields the same report as reporting it once: the same owners, the same lines
      for every owner, the same output. */
  lemma DuplicateProblemCollapses(ms: seq<Option<MatcherState>>, owner: string, p: Problem)
    requires exists i, k :: (0 <= i < |ms| && OwnedBy(ms, i, owner)
      && 0 <= k < |ms[i].value.problems| && ms[i].value.problems[k] == p)
    ensures Owners(ms + [Some(MatcherState(owner, [p]))]) == Owners(ms)
    ensures forall o :: LinesOf(ms + [Some(MatcherState(owner, [p]))], o) == LinesOf(ms, o)
    ensures Report(ms + [Some(MatcherState(owner, [p]))]) == Report(ms)
  {
    var ms' := ms + [Some(MatcherState(owner, [p]))];
    assert ms'[..|ms|] == ms;
    var i, k :| 0 <= i < |ms| && OwnedBy(ms, i, owner) && 0 <= k < |ms[i].value.problems| && ms[i].value.problems[k] == p;
    OwnersExact(ms);
    assert owner in Owners(ms);
    DuplicateLineCollapses(ms, owner, p, i, k);
    forall o | o != owner ensures AllLines(ms', o) == AllLines(ms, o) {
    }
    BlocksCongruent(Owners(ms), ms', ms);
  }

  /** The owner's own lines are unchanged by a problem it already reports. */
  lemma DuplicateLineCollapses(ms: seq<Option<MatcherState>>, owner: string, p: Problem, i: nat, k: nat)
    requires 0 <= i < |ms| && OwnedBy(ms, i, owner) && 0 <= k < |ms[i].value.problems| && ms[i].value.problems[k] == p
    ensures LinesOf(ms + [Some(MatcherState(owner, [p]))], owner) == LinesOf(ms, owner)
  {
    var ms' := ms + [Some(MatcherState(owner, [p]))];
    assert ms'[..|ms|] == ms;
    assert Formats([p]) == [Format(p)] by {
      assert [p][..0] == [];
    }
    var all := AllLines(ms', owner);
    assert all == AllLines(ms, owner) + [Format(p)];
    AllLinesMembers(ms, owner);
    assert Reported(ms, owner, Format(p));
    DedupMembers(AllLines(ms, owner));
    assert all[..|all| - 1] == AllLines(ms, owner);
  }
}
