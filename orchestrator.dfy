/**
 * The deterministic parts of the orchestrator: the branch name derived
 * from a goal, the fixed task order, running the configured tasks until
 * the first failure, and finding the failure to report to the debugger.
 */
module Orchestrator {
  import opened Results
  import opened Text
  import Config
  import Context
  import Git

  // ---------------------------------------------------------------------
  // Branch names
  // ---------------------------------------------------------------------

  /** The longest slug a branch name carries. */
  const SlugLimit := 40

  /** A character a slug may hold: a lower-case ASCII letter, a digit or '-'. */
  predicate SlugChar(c: char) {
    IsAsciiLower(c) || IsAsciiDigit(c) || c == '-'
  }

  predicate IsDash(c: char) { c == '-' }

  /** Letters and digits are kept (lower-cased), everything else becomes '-'. */
  function MapChar(ch: char): (c: char)
    ensures SlugChar(c)
    ensures c != '-' <==> IsAsciiAlnum(ch)
  {
    if IsAsciiAlnum(ch) then LowerAscii(ch) else '-'
  }

  function MapChars(goal: string): (s: string)
    ensures |s| == |goal|
    ensures forall i :: 0 <= i < |s| ==> s[i] == MapChar(goal[i])
  {
    seq(|goal|, i requires 0 <= i < |goal| => MapChar(goal[i]))
  }

  /** The parts that are not empty, in order. */
  function NonEmpty(parts: seq<string>): (r: seq<string>)
    ensures forall k :: 0 <= k < |r| ==> r[k] != [] && r[k] in parts
    ensures r == [] <==> forall k :: 0 <= k < |parts| ==> parts[k] == []
    decreases |parts|
  {
    if parts == [] then []
    else if parts[0] == [] then NonEmpty(parts[1..])
    else [parts[0]] + NonEmpty(parts[1..])
  }

  /** No two dashes in a row, and none at the start. */
  predicate WellFormedSlug(s: string) {
    && (forall i :: 0 <= i < |s| ==> SlugChar(s[i]))
    && (s != [] ==> s[0] != '-')
    && (forall i :: 0 <= i < |s| - 1 ==> !(s[i] == '-' && s[i + 1] == '-'))
  }

  /** A piece of a slug: non-empty, slug characters, no dash. */
  predicate IsWord(p: string) {
    p != [] && forall j :: 0 <= j < |p| ==> SlugChar(p[j]) && p[j] != '-'
  }

  /** Dash-joined words are a well-formed slug that does not end with a dash. */
  lemma {:induction false} JoinWords(parts: seq<string>)
    requires forall k :: 0 <= k < |parts| ==> IsWord(parts[k])
    ensures WellFormedSlug(Join(parts, "-"))
    ensures parts != [] ==> Join(parts, "-") != [] && Join(parts, "-")[|Join(parts, "-")| - 1] != '-'
    decreases |parts|
  {
    if |parts| >= 2 {
      JoinWords(parts[1..]);
      var a := parts[0];
      var b := Join(parts[1..], "-");
      var s := Join(parts, "-");
      assert s == a + "-" + b;
      assert IsWord(a);
      forall i | 0 <= i < |s| ensures SlugChar(s[i]) {
        if i < |a| { assert s[i] == a[i]; }
        else if i > |a| { assert s[i] == b[i - |a| - 1]; }
      }
      forall i | 0 <= i < |s| - 1 ensures !(s[i] == '-' && s[i + 1] == '-') {
        if i < |a| { assert s[i] == a[i]; }
        else if i > |a| { assert s[i] == b[i - |a| - 1] && s[i + 1] == b[i - |a|]; }
      }
      assert s[|s| - 1] == b[|b| - 1];
    } else if |parts| == 1 {
      assert Join(parts, "-") == parts[0];
      assert IsWord(parts[0]);
    }
  }

  /** Cutting a well-formed slug keeps it well-formed. */
  lemma HeadWellFormed(s: string, n: nat)
    requires WellFormedSlug(s)
    ensures WellFormedSlug(Head(s, n))
  {
    var h := Head(s, n);
    assert forall i :: 0 <= i < |h| ==> h[i] == s[i];
  }

  /** The dash-free words of the lower-cased goal, in order. */
  function SlugParts(goal: string): (parts: seq<string>)
    ensures forall k :: 0 <= k < |parts| ==> IsWord(parts[k])
  {
    var stripped := StripBy(MapChars(goal), IsDash);
    SlugCharsStripped(goal);
    PiecesAreWords(stripped);
    NonEmpty(Split(stripped, '-'))
  }

  /** The goal mapped and stripped of dashes holds slug characters only. */
  lemma SlugCharsStripped(goal: string)
    ensures var stripped := StripBy(MapChars(goal), IsDash);
      forall i :: 0 <= i < |stripped| ==> SlugChar(stripped[i])
  {
    var mapped := MapChars(goal);
    var stripped := StripBy(mapped, IsDash);
    StripByChars(mapped, IsDash);
    forall i | 0 <= i < |stripped| ensures SlugChar(stripped[i]) {
      var n :| 0 <= n < |mapped| && mapped[n] == stripped[i];
    }
  }

  /** The non-empty pieces of a string of slug characters, split at '-', are words. */
  lemma PiecesAreWords(s: string)
    requires forall i :: 0 <= i < |s| ==> SlugChar(s[i])
    ensures var parts := NonEmpty(Split(s, '-'));
      forall k :: 0 <= k < |parts| ==> IsWord(parts[k])
  {
    var pieces := Split(s, '-');
    var parts := NonEmpty(pieces);
    forall k | 0 <= k < |parts| ensures IsWord(parts[k]) {
      var p := parts[k];
      forall j | 0 <= j < |p| ensures SlugChar(p[j]) && p[j] != '-' {
        var m :| 0 <= m < |pieces| && pieces[m] == p;
        assert p[j] in s;
      }
    }
  }

  /** `slug` of `_branch_name_from_goal`, restricted to ASCII letters and digits. */
  function Slug(goal: string): (s: string)
    ensures |s| <= SlugLimit
    ensures WellFormedSlug(s)
    ensures s == [] <==> SlugParts(goal) == []
  {
    var joined := Join(SlugParts(goal), "-");
    JoinWords(SlugParts(goal));
    HeadWellFormed(joined, SlugLimit);
    Head(joined, SlugLimit)
  }

  /** A character other than the separator in a joined string sits in one of the parts. */
  lemma {:induction false} JoinHolds(parts: seq<string>, sep: char, c: char)
    requires c != sep && c in Join(parts, [sep])
    ensures exists k :: 0 <= k < |parts| && c in parts[k]
    decreases |parts|
  {
    if |parts| >= 2 {
      var rest := Join(parts[1..], [sep]);
      assert Join(parts, [sep]) == parts[0] + [sep] + rest;
      if c !in parts[0] {
        assert c in rest;
        JoinHolds(parts[1..], sep, c);
        var k :| 0 <= k < |parts[1..]| && c in parts[1..][k];
        assert c in parts[k + 1];
      }
    } else {
      assert c in parts[0];
    }
  }

  /** A letter or digit anywhere in the goal gives the slug a word. */
  lemma SlugPartsFromAlnum(goal: string, i: nat)
    requires i < |goal| && IsAsciiAlnum(goal[i])
    ensures SlugParts(goal) != []
  {
    var mapped := MapChars(goal);
    var stripped := StripBy(mapped, IsDash);
    StripByChars(mapped, IsDash);
    var pieces := Split(stripped, '-');
    var c := mapped[i];
    assert c != '-' && c in stripped;
    JoinSplit(stripped, '-');
    JoinHolds(pieces, '-', c);
    var k :| 0 <= k < |pieces| && c in pieces[k];
    assert pieces[k] != [];
  }

  /** Without letters and digits the goal maps to dashes only, and gives no word. */
  lemma SlugPartsWithoutAlnum(goal: string)
    requires forall i :: 0 <= i < |goal| ==> !IsAsciiAlnum(goal[i])
    ensures SlugParts(goal) == []
  {
    var mapped := MapChars(goal);
    var stripped := StripBy(mapped, IsDash);
    StripByChars(mapped, IsDash);
    assert stripped == [];
    assert Split(stripped, '-') == [""];
  }

  /** The slug is empty exactly when the goal has no ASCII letter or digit. */
  lemma SlugEmpty(goal: string)
    ensures Slug(goal) == [] <==> forall i :: 0 <= i < |goal| ==> !IsAsciiAlnum(goal[i])
  {
    if i :| 0 <= i < |goal| && IsAsciiAlnum(goal[i]) {
      SlugPartsFromAlnum(goal, i);
    } else {
      SlugPartsWithoutAlnum(goal);
    }
  }

  /**
   * `_branch_name_from_goal` with the UTC timestamp (`%Y%m%d-%H%M%S`)
   * given as `ts`: "ai/" + ts + "_" + the slug, or "change" when the slug
   * is empty.
   */
  function BranchName(ts: string, goal: string): (name: string)
    ensures StartsWith(name, "ai/" + ts + "_")
    ensures Slug(goal) != [] ==> name[|ts| + 4..] == Slug(goal)
    ensures Slug(goal) == [] ==> name[|ts| + 4..] == "change"
  {
    var slug := Slug(goal);
    "ai/" + ts + "_" + (if slug != [] then slug else "change")
  }

  /** A character a branch name built from a well-formed timestamp may hold. */
  predicate BranchChar(c: char) {
    IsAsciiLower(c) || IsAsciiDigit(c) || c == '-' || c == '_' || c == '/'
  }

  /** Every character of `s` may appear in a branch name built here. */
  predicate AllBranchChars(s: string) {
    forall i :: 0 <= i < |s| ==> BranchChar(s[i])
  }

  /** Joining two strings of branch characters gives one. */
  lemma ConcatBranchChars(a: string, b: string)
    requires AllBranchChars(a) && AllBranchChars(b)
    ensures AllBranchChars(a + b)
  {
    forall i | 0 <= i < |a + b| ensures BranchChar((a + b)[i]) {
      if i >= |a| { assert (a + b)[i] == b[i - |a|]; }
    }
  }

  /**
   * Every name `BranchName` builds from a timestamp of digits and dashes
   * passes the forbidden-fragment check of `_git_create_branch`.
   */
  lemma BranchNameAllowed(ts: string, goal: string)
    requires forall i :: 0 <= i < |ts| ==> IsAsciiDigit(ts[i]) || ts[i] == '-'
    ensures !Git.HasForbidden(BranchName(ts, goal))
  {
    var slug := Slug(goal);
    var tail := if slug != [] then slug else "change";
    assert AllBranchChars(tail) by {
      if slug != [] { SlugBranchChars(slug); }
    }
    assert AllBranchChars(ts);
    BranchFromParts(ts, tail);
  }

  /** "ai/<ts>_<tail>" is allowed when `ts` and `tail` hold branch characters only. */
  lemma BranchFromParts(ts: string, tail: string)
    requires AllBranchChars(ts) && AllBranchChars(tail)
    ensures !Git.HasForbidden("ai/" + ts + "_" + tail)
  {
    ConcatBranchChars("ai/", ts);
    ConcatBranchChars("ai/" + ts, "_");
    ConcatBranchChars("ai/" + ts + "_", tail);
    BranchCharsAllowed("ai/" + ts + "_" + tail);
  }

  /** A slug holds branch characters only. */
  lemma SlugBranchChars(s: string)
    requires WellFormedSlug(s)
    ensures AllBranchChars(s)
  {
    assert forall i :: 0 <= i < |s| ==> SlugChar(s[i]);
  }

  /** A name of branch characters holds no forbidden fragment: no dot, so no "..", and none of the rest. */
  lemma BranchCharsAllowed(name: string)
    requires AllBranchChars(name)
    ensures !Git.HasForbidden(name)
  {
    Git.HasForbiddenChars(name);
    if Contains(name, "..") {
      ContainsHead(name, "..");
      assert false;
    }
  }

  // ---------------------------------------------------------------------
  // Running the configured tasks
  // ---------------------------------------------------------------------

  /** The checks run after every implementation step; install is never among them. */
  const TaskOrder: seq<Config.TaskName> :=
    [Config.Format, Config.Lint, Config.Typecheck, Config.Test, Config.Build]

  lemma TaskOrderDistinct()
    ensures forall j, k :: 0 <= j < k < |TaskOrder| ==> TaskOrder[j] != TaskOrder[k]
    ensures Config.Install !in TaskOrder
  {
  }

  /** What the status records for one task. */
  datatype TaskStatus =
    | Skipped
    | Ran(ok: bool, returncode: int, cmd: string, outputTail: string)

  /** One entry of the status dictionary, in insertion order. */
  type Entry = (Config.TaskName, TaskStatus)

  /** The longest output tail kept for a task. */
  const TailLimit := 4000

  /** The command for a task: its argv, in its directory below the repository, 900 seconds. */
  function TaskCommand(repoDir: Context.Path, spec: Config.TaskSpec): Git.Command {
    Git.Command(spec.argv, Context.JoinPath(repoDir, spec.cwd), Some(900))
  }

  /** Runs one configured task and records its result. */
  function Attempt(repoDir: Context.Path, spec: Config.TaskSpec, run: Git.Runner): (s: TaskStatus)
    ensures s.Ran?
    ensures s.returncode == run(TaskCommand(repoDir, spec)).returncode
    ensures s.ok <==> s.returncode == 0
    ensures s.cmd == Join(spec.argv, " ")
    ensures s.outputTail == Tail(Git.Exec(TaskCommand(repoDir, spec), run).out, TailLimit)
  {
    var res := Git.Exec(TaskCommand(repoDir, spec), run);
    Ran(res.code == 0, res.code, Join(spec.argv, " "), Tail(res.out, TailLimit))
  }

  predicate Failed(s: TaskStatus) {
    s.Ran? && !s.ok
  }

  /** The entry recorded for task `i` of the order: skipped, or its attempt. */
  function EntryAt(tasks: map<Config.TaskName, Config.TaskSpec>, repoDir: Context.Path,
                   run: Git.Runner, i: nat): (e: Entry)
    requires i < |TaskOrder|
    ensures e.0 == TaskOrder[i]
    ensures e.1.Skipped? <==> TaskOrder[i] !in tasks
    ensures TaskOrder[i] in tasks ==> e.1 == Attempt(repoDir, tasks[TaskOrder[i]], run)
  {
    var t := TaskOrder[i];
    (t, if t in tasks then Attempt(repoDir, tasks[t], run) else Skipped)
  }

  /** The status `_run_tasks` builds from task `i` of the order on. */
  function RunFrom(tasks: map<Config.TaskName, Config.TaskSpec>, repoDir: Context.Path,
                   run: Git.Runner, i: nat): (r: seq<Entry>)
    ensures r == [] <==> i >= |TaskOrder|
    decreases |TaskOrder| - i
  {
    if i >= |TaskOrder| then []
    else
      var e := EntryAt(tasks, repoDir, run, i);
      if Failed(e.1) then [e] else [e] + RunFrom(tasks, repoDir, run, i + 1)
  }

  /** One step of `RunFrom`: the entry for task `i`, then the rest unless it failed. */
  lemma RunFromUnfold(tasks: map<Config.TaskName, Config.TaskSpec>, repoDir: Context.Path,
                      run: Git.Runner, i: nat)
    requires i < |TaskOrder|
    ensures var e := EntryAt(tasks, repoDir, run, i);
      var r := RunFrom(tasks, repoDir, run, i);
      var rest := RunFrom(tasks, repoDir, run, i + 1);
      && r != [] && r[0] == e
      && (Failed(e.1) ==> r == [e])
      && (!Failed(e.1) ==> |r| == 1 + |rest| && r[1..] == rest)
  {
  }

  /** A step of `RunFrom` over a task that is skipped or succeeds: its entry, then the rest. */
  lemma RunFromGoesOn(tasks: map<Config.TaskName, Config.TaskSpec>, repoDir: Context.Path,
                      run: Git.Runner, i: nat, done: seq<Entry>)
    requires i < |TaskOrder| && !Failed(EntryAt(tasks, repoDir, run, i).1)
    ensures done + RunFrom(tasks, repoDir, run, i)
         == (done + [EntryAt(tasks, repoDir, run, i)]) + RunFrom(tasks, repoDir, run, i + 1)
  {
    var e := EntryAt(tasks, repoDir, run, i);
    var rest := RunFrom(tasks, repoDir, run, i + 1);
    assert RunFrom(tasks, repoDir, run, i) == [e] + rest;
    assert done + ([e] + rest) == (done + [e]) + rest;
  }

  /** A step of `RunFrom` over a task that fails: its entry ends the status. */
  lemma RunFromStopsAt(tasks: map<Config.TaskName, Config.TaskSpec>, repoDir: Context.Path,
                       run: Git.Runner, i: nat, done: seq<Entry>)
    requires i < |TaskOrder| && Failed(EntryAt(tasks, repoDir, run, i).1)
    ensures done + RunFrom(tasks, repoDir, run, i) == done + [EntryAt(tasks, repoDir, run, i)]
  {
  }

  /**
   * `_run_tasks`: visits `TaskOrder` in order, records an unconfigured one
   * as skipped, runs a configured one and stops after the first failure.
   */
  method RunTasks(ctx: Context.RepoContext, run: Git.Runner) returns (status: seq<Entry>)
    ensures status == RunFrom(ctx.config.tasks, ctx.repoDir, run, 0)
  {
    var tasks := ctx.config.tasks;
    var dir := ctx.repoDir;
    status := [];
    var i := 0;
    while i < |TaskOrder|
      invariant 0 <= i <= |TaskOrder|
      invariant status + RunFrom(tasks, dir, run, i) == RunFrom(tasks, dir, run, 0)
    {
      var stop;
      status, stop := RunOne(tasks, dir, run, i, status);
      if stop {
        return;
      }
      i := i + 1;
    }
  }

  /**
   * One round of `_run_tasks`, over task `i` of the order: records it as
   * skipped, or runs it and records the result, and says whether the
   * loop stops here (this task failed).
   */
  method RunOne(tasks: map<Config.TaskName, Config.TaskSpec>, dir: Context.Path, run: Git.Runner,
                i: nat, status: seq<Entry>) returns (next: seq<Entry>, stop: bool)
    requires i < |TaskOrder|
    ensures stop ==> next == status + RunFrom(tasks, dir, run, i)
    ensures !stop ==> next + RunFrom(tasks, dir, run, i + 1) == status + RunFrom(tasks, dir, run, i)
  {
    var t := TaskOrder[i];
    if t !in tasks {
      RunFromGoesOn(tasks, dir, run, i, status);
      return status + [(t, Skipped)], false;
    }
    var s := Attempt(dir, tasks[t], run);
    if !s.ok {
      RunFromStopsAt(tasks, dir, run, i, status);
      return status + [(t, s)], true;
    }
    RunFromGoesOn(tasks, dir, run, i, status);
    return status + [(t, s)], false;
  }

  /**
   * The status from position `i` on is a run of consecutive entries of
   * the order: entry `k` is task `i + k`, skipped exactly when that task
   * is not configured and otherwise its attempt.
   */
  lemma {:induction false} RunFromEntries(tasks: map<Config.TaskName, Config.TaskSpec>,
                                          repoDir: Context.Path, run: Git.Runner, i: nat)
    requires i <= |TaskOrder|
    ensures var r := RunFrom(tasks, repoDir, run, i);
      && |r| <= |TaskOrder| - i
      && (forall k :: 0 <= k < |r| ==> r[k] == EntryAt(tasks, repoDir, run, i + k))
    decreases |TaskOrder| - i
  {
    if i < |TaskOrder| {
      RunFromUnfold(tasks, repoDir, run, i);
      RunFromEntries(tasks, repoDir, run, i + 1);
      var r := RunFrom(tasks, repoDir, run, i);
      var rest := RunFrom(tasks, repoDir, run, i + 1);
      forall k | 1 <= k < |r| ensures r[k] == EntryAt(tasks, repoDir, run, i + k) {
        assert r[k] == r[1..][k - 1] == rest[k - 1];
      }
    }
  }

  /** The entries before the last one of the status from position `i` on are not failures. */
  lemma {:induction false} RunFromNoEarlyFailure(tasks: map<Config.TaskName, Config.TaskSpec>,
                                                 repoDir: Context.Path, run: Git.Runner, i: nat, k: nat)
    requires i <= |TaskOrder| && k + 1 < |RunFrom(tasks, repoDir, run, i)|
    ensures !Failed(RunFrom(tasks, repoDir, run, i)[k].1)
    decreases k
  {
    RunFromUnfold(tasks, repoDir, run, i);
    var r := RunFrom(tasks, repoDir, run, i);
    var rest := RunFrom(tasks, repoDir, run, i + 1);
    if k > 0 {
      RunFromNoEarlyFailure(tasks, repoDir, run, i + 1, k - 1);
      assert r[k] == r[1..][k - 1] == rest[k - 1];
    }
  }

  /** The status from position `i` on stops short of the end of the order only by ending in a failure. */
  lemma {:induction false} RunFromShortEndsInFailure(tasks: map<Config.TaskName, Config.TaskSpec>,
                                                     repoDir: Context.Path, run: Git.Runner, i: nat)
    requires i <= |TaskOrder| && |RunFrom(tasks, repoDir, run, i)| < |TaskOrder| - i
    ensures var r := RunFrom(tasks, repoDir, run, i); r != [] && Failed(r[|r| - 1].1)
    decreases |TaskOrder| - i
  {
    RunFromUnfold(tasks, repoDir, run, i);
    var r := RunFrom(tasks, repoDir, run, i);
    var rest := RunFrom(tasks, repoDir, run, i + 1);
    if !Failed(r[0].1) {
      RunFromShortEndsInFailure(tasks, repoDir, run, i + 1);
      assert r[|r| - 1] == r[1..][|rest| - 1] == rest[|rest| - 1];
    }
  }

  /**
   * Only the last entry can be a failure, and the status stops short of
   * the end of the order only by ending in one.
   */
  lemma RunFromStops(tasks: map<Config.TaskName, Config.TaskSpec>,
                     repoDir: Context.Path, run: Git.Runner, i: nat)
    requires i <= |TaskOrder|
    ensures var r := RunFrom(tasks, repoDir, run, i);
      && (forall k :: 0 <= k < |r| - 1 ==> !Failed(r[k].1))
      && (|r| < |TaskOrder| - i ==> r != [] && Failed(r[|r| - 1].1))
  {
    var r := RunFrom(tasks, repoDir, run, i);
    forall k | 0 <= k < |r| - 1 ensures !Failed(r[k].1) {
      RunFromNoEarlyFailure(tasks, repoDir, run, i, k);
    }
    if |r| < |TaskOrder| - i {
      RunFromShortEndsInFailure(tasks, repoDir, run, i);
    }
  }

  /** `_run_tasks` never runs the install task. */
  lemma RunNeverInstalls(tasks: map<Config.TaskName, Config.TaskSpec>, repoDir: Context.Path, run: Git.Runner)
    ensures forall k :: 0 <= k < |RunFrom(tasks, repoDir, run, 0)| ==> RunFrom(tasks, repoDir, run, 0)[k].0 != Config.Install
  {
    RunFromEntries(tasks, repoDir, run, 0);
    TaskOrderDistinct();
  }

  /** When every configured task of the order succeeds, the status covers all five tasks. */
  lemma RunAllSucceed(tasks: map<Config.TaskName, Config.TaskSpec>, repoDir: Context.Path, run: Git.Runner)
    requires forall t :: t in TaskOrder && t in tasks ==> Attempt(repoDir, tasks[t], run).ok
    ensures |RunFrom(tasks, repoDir, run, 0)| == |TaskOrder|
  {
    var r := RunFrom(tasks, repoDir, run, 0);
    RunFromEntries(tasks, repoDir, run, 0);
    RunFromStops(tasks, repoDir, run, 0);
  }

  // ---------------------------------------------------------------------
  // The failure reported to the debugger
  // ---------------------------------------------------------------------

  /** `status.get(t)`: the first entry for `t`. */
  function Lookup(status: seq<Entry>, t: Config.TaskName): (r: Option<TaskStatus>)
    ensures r.None? <==> forall k :: 0 <= k < |status| ==> status[k].0 != t
    decreases |status|
  {
    if status == [] then None
    else if status[0].0 == t then Some(status[0].1)
    else Lookup(status[1..], t)
  }

  /** A value `Lookup` finds is the value of an entry for that task. */
  lemma {:induction false} LookupFound(status: seq<Entry>, t: Config.TaskName)
    requires Lookup(status, t).Some?
    ensures exists k :: 0 <= k < |status| && status[k] == (t, Lookup(status, t).value)
    decreases |status|
  {
    if status[0].0 != t {
      LookupFound(status[1..], t);
      var k :| 0 <= k < |status[1..]| && status[1..][k] == (t, Lookup(status, t).value);
      assert status[k + 1] == status[1..][k];
    }
  }

  /** The text passed to the debugger for a failed task. */
  function Report(t: Config.TaskName, s: TaskStatus): (r: string)
    requires s.Ran?
    ensures StartsWith(r, Config.Name(t) + ": ")
    ensures |s.outputTail| <= |r| && r[|r| - |s.outputTail|..] == s.outputTail
  {
    Config.Name(t) + ": " + s.cmd + "\n" + s.outputTail
  }

  /** `status` holds an entry for `t`, and the first such entry is not ok. */
  predicate FailedIn(status: seq<Entry>, t: Config.TaskName) {
    Lookup(status, t).Some? && Failed(Lookup(status, t).value)
  }

  /** The first failure among `TaskOrder` from position `i` on. */
  function FailureFrom(status: seq<Entry>, i: nat): (r: Option<string>)
    ensures r.None? <==> forall k :: i <= k < |TaskOrder| ==> !FailedIn(status, TaskOrder[k])
    ensures r.Some? ==> exists k :: i <= k < |TaskOrder| && FailedIn(status, TaskOrder[k])
                                    && (forall m :: i <= m < k ==> !FailedIn(status, TaskOrder[m]))
                                    && r.value == Report(TaskOrder[k], Lookup(status, TaskOrder[k]).value)
    decreases |TaskOrder| - i
  {
    if i >= |TaskOrder| then None
    else
      var t := TaskOrder[i];
      match Lookup(status, t)
      case Some(s) =>
        if Failed(s) then Some(Report(t, s)) else FailureFrom(status, i + 1)
      case None => FailureFrom(status, i + 1)
  }

  /** One step of `FailureFrom`: the report of task `i` if its entry failed, else the scan from `i + 1`. */
  lemma FailureFromStep(status: seq<Entry>, i: nat)
    requires i < |TaskOrder|
    ensures var info := Lookup(status, TaskOrder[i]);
      FailureFrom(status, i)
      == if info.Some? && Failed(info.value) then Some(Report(TaskOrder[i], info.value)) else FailureFrom(status, i + 1)
  {
  }

  /**
   * The scan after each iteration: walks `TaskOrder`, passes over
   * missing and skipped tasks, and stops at the first entry that is not ok.
   */
  method FirstFailure(status: seq<Entry>) returns (failed: bool, report: string)
    ensures failed <==> FailureFrom(status, 0).Some?
    ensures failed ==> report == FailureFrom(status, 0).value
    ensures !failed ==> report == ""
  {
    failed := false;
    report := "";
    var i := 0;
    while i < |TaskOrder|
      invariant 0 <= i <= |TaskOrder|
      invariant FailureFrom(status, i) == FailureFrom(status, 0)
    {
      var stop, r := ScanTask(status, i);
      if stop {
        failed := true;
        report := r;
        return;
      }
      i := i + 1;
    }
  }

  /** One round of the scan: stop with the report when task `i`'s entry is not ok, else go on. */
  method ScanTask(status: seq<Entry>, i: nat) returns (stop: bool, report: string)
    requires i < |TaskOrder|
    ensures stop ==> FailureFrom(status, i) == Some(report)
    ensures !stop ==> FailureFrom(status, i) == FailureFrom(status, i + 1)
  {
    var t := TaskOrder[i];
    var info := Lookup(status, t);
    FailureFromStep(status, i);
    if info.Some? && info.value.Skipped? {
      return false, "";
    }
    if info.Some? && !info.value.ok {
      return true, Report(t, info.value);
    }
    return false, "";
  }

  /**
   * The shape of every status `RunTasks` builds: the keys follow
   * `TaskOrder`, and no entry but the last is a failure.
   */
  predicate RunShaped(r: seq<Entry>) {
    && |r| <= |TaskOrder|
    && (forall k :: 0 <= k < |r| ==> r[k].0 == TaskOrder[k])
    && (forall k :: 0 <= k < |r| - 1 ==> !Failed(r[k].1))
  }

  /** A status `RunTasks` builds has that shape. */
  lemma RunIsShaped(tasks: map<Config.TaskName, Config.TaskSpec>, repoDir: Context.Path, run: Git.Runner)
    ensures RunShaped(RunFrom(tasks, repoDir, run, 0))
  {
    RunFromEntries(tasks, repoDir, run, 0);
    RunFromStops(tasks, repoDir, run, 0);
  }

  /** In a status of that shape, each task's entry is found at its position. */
  lemma {:induction false} LookupRun(r: seq<Entry>, j: nat)
    requires RunShaped(r) && j < |TaskOrder|
    ensures Lookup(r, TaskOrder[j]) == if j < |r| then Some(r[j].1) else None
  {
    TaskOrderDistinct();
    var t := TaskOrder[j];
    if j < |r| {
      assert r[j].0 == t;
      LookupFound(r, t);
      var k :| 0 <= k < |r| && r[k] == (t, Lookup(r, t).value);
      assert r[k].0 == TaskOrder[k];
    } else {
      assert forall k :: 0 <= k < |r| ==> r[k].0 == TaskOrder[k] != t;
    }
  }

  /** Past the end of a status of that shape, the scan finds nothing. */
  lemma {:induction false} FailureFromPast(r: seq<Entry>, i: nat)
    requires RunShaped(r) && |r| <= i <= |TaskOrder|
    ensures FailureFrom(r, i) == None
    decreases |TaskOrder| - i
  {
    if i < |TaskOrder| {
      LookupRun(r, i);
      FailureFromPast(r, i + 1);
    }
  }

  /** From an entry of a status of that shape, the scan finds the failure that ends it, if any. */
  lemma {:induction false} FailureFromBefore(r: seq<Entry>, i: nat)
    requires RunShaped(r) && i < |r|
    ensures FailureFrom(r, i) == if Failed(r[|r| - 1].1) then Some(Report(r[|r| - 1].0, r[|r| - 1].1)) else None
    decreases |r| - i
  {
    var t := TaskOrder[i];
    var e := r[i].1;
    LookupRun(r, i);
    if i + 1 < |r| {
      assert !Failed(e);
      assert FailureFrom(r, i) == FailureFrom(r, i + 1);
      FailureFromBefore(r, i + 1);
    } else if Failed(e) {
      assert FailureFrom(r, i) == Some(Report(t, e));
    } else {
      assert FailureFrom(r, i) == FailureFrom(r, i + 1);
      FailureFromPast(r, i + 1);
    }
  }

  /**
   * The scan over a status `RunTasks` built reports a failure exactly when
   * the run ended in one, and then reports that last task.
   */
  lemma FailureOfRun(tasks: map<Config.TaskName, Config.TaskSpec>, repoDir: Context.Path, run: Git.Runner)
    ensures var r := RunFrom(tasks, repoDir, run, 0);
      FailureFrom(r, 0) ==
        if r != [] && Failed(r[|r| - 1].1) then Some(Report(r[|r| - 1].0, r[|r| - 1].1)) else None
  {
    var r := RunFrom(tasks, repoDir, run, 0);
    RunIsShaped(tasks, repoDir, run);
    FailureFromBefore(r, 0);
  }
}
