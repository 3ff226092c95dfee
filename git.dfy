/**
 * The guarded git helpers shared by the orchestrator and the repository
 * tools.  A process is never started here: every helper is given the
 * runner (what the operating system would report for a command) and
 * returns, next to its text, the list of commands it asked to run.
 */
module Git {
  import opened Results
  import opened Text
  import Context

  // ---------------------------------------------------------------------
  // Processes
  // ---------------------------------------------------------------------

  /** A process invocation: argument vector, working directory, timeout in seconds if any. */
  datatype Command = Command(argv: seq<string>, cwd: Context.Path, timeoutSec: Option<int>)

  /** What a finished process reports. */
  datatype Process = Process(returncode: int, stdout: string, stderr: string)

  /** The environment that runs commands. */
  type Runner = Command -> Process

  /** A return code with the combined, stripped output of `_run`. */
  datatype CmdResult = CmdResult(code: int, out: string)

  /** A helper's answer, and the commands it ran, in order. */
  datatype Outcome = Outcome(text: string, ran: seq<Command>)

  /**
   * `_run`'s output: standard output, then standard error on a line of
   * its own, with surrounding whitespace removed.
   */
  function Combined(p: Process): (out: string)
    ensures out == [] || (!IsSpace(out[0]) && !IsSpace(out[|out| - 1]))
    ensures p.stderr == [] ==> out == Strip(p.stdout)
    ensures p.stdout == [] ==> out == Strip("\n" + p.stderr)
  {
    if p.stderr == [] then Strip(p.stdout)
    else if p.stdout == [] then Strip("\n" + p.stderr)
    else Strip(p.stdout + "\n" + p.stderr)
  }

  /** Runs `cmd` and post-processes its output as `_run` does. */
  function Exec(cmd: Command, run: Runner): (r: CmdResult)
    ensures r.code == run(cmd).returncode
    ensures r.out == Combined(run(cmd))
    ensures r.out == [] || (!IsSpace(r.out[0]) && !IsSpace(r.out[|r.out| - 1]))
  {
    var p := run(cmd);
    CmdResult(p.returncode, Combined(p))
  }

  /** Every git helper gives its command a 60-second limit. */
  const GitTimeout: Option<int> := Some(60)

  // ---------------------------------------------------------------------
  // Status and diff
  // ---------------------------------------------------------------------

  const StatusArgv := ["git", "status", "--porcelain=v1"]

  /** `git status --porcelain=v1`, or "(clean)" when it prints nothing. */
  function Status(cwd: Context.Path, run: Runner): (r: Outcome)
    ensures r.ran == [Command(StatusArgv, cwd, GitTimeout)]
    ensures r.text != []
    ensures var res := Exec(r.ran[0], run);
      && (res.code != 0 ==> r.text == "ERROR: git status failed\n" + res.out)
      && (res.code == 0 && res.out != [] ==> r.text == res.out)
      && (res.code == 0 && res.out == [] ==> r.text == "(clean)")
  {
    var cmd := Command(StatusArgv, cwd, GitTimeout);
    var res := Exec(cmd, run);
    if res.code != 0 then Outcome("ERROR: git status failed\n" + res.out, [cmd])
    else Outcome(if res.out != [] then res.out else "(clean)", [cmd])
  }

  function DiffArgv(staged: bool): (argv: seq<string>)
    ensures |argv| >= 2 && argv[..2] == ["git", "diff"]
    ensures staged <==> argv == ["git", "diff", "--staged"]
  {
    if staged then ["git", "diff", "--staged"] else ["git", "diff"]
  }

  const TruncationMarker := "\n... (truncated)"

  /**
   * `git diff` (optionally staged): an error text on failure, output
   * longer than `maxChars` cut to `out[:maxChars]` plus a marker, and
   * "(no diff)" for empty output.  Python's slice is kept: a negative
   * `maxChars` drops that many characters from the end.
   */
  function Diff(staged: bool, maxChars: int, cwd: Context.Path, run: Runner): (r: Outcome)
    ensures r.ran == [Command(DiffArgv(staged), cwd, GitTimeout)]
  {
    var cmd := Command(DiffArgv(staged), cwd, GitTimeout);
    var res := Exec(cmd, run);
    if res.code != 0 then Outcome("ERROR: git diff failed\n" + res.out, [cmd])
    else if |res.out| > maxChars then Outcome(Head(res.out, maxChars) + TruncationMarker, [cmd])
    else Outcome(if res.out != [] then res.out else "(no diff)", [cmd])
  }

  /** The output git printed for the diff command. */
  function DiffOutput(staged: bool, cwd: Context.Path, run: Runner): CmdResult {
    Exec(Command(DiffArgv(staged), cwd, GitTimeout), run)
  }

  /** A failing `git diff` gives the error text with git's output. */
  lemma DiffFailure(staged: bool, maxChars: int, cwd: Context.Path, run: Runner)
    requires DiffOutput(staged, cwd, run).code != 0
    ensures Diff(staged, maxChars, cwd, run).text
         == "ERROR: git diff failed\n" + DiffOutput(staged, cwd, run).out
  {
  }

  /**
   * A successful diff within the limit comes back unchanged (or as
   * "(no diff)" when empty); one over a non-negative limit is its first
   * `maxChars` characters followed by the marker.
   */
  lemma DiffSuccess(staged: bool, maxChars: int, cwd: Context.Path, run: Runner)
    requires DiffOutput(staged, cwd, run).code == 0
    ensures var out := DiffOutput(staged, cwd, run).out;
      var text := Diff(staged, maxChars, cwd, run).text;
      && (|out| <= maxChars && out != [] ==> text == out)
      && (out == [] && maxChars >= 0 ==> text == "(no diff)")
      && (0 <= maxChars < |out| ==> text == out[..maxChars] + TruncationMarker)
  {
  }

  /**
   * With a non-negative limit a successful diff text is at most the limit
   * plus the marker long.
   */
  lemma DiffBounded(staged: bool, maxChars: int, cwd: Context.Path, run: Runner)
    requires maxChars >= 0 && DiffOutput(staged, cwd, run).code == 0
    ensures |Diff(staged, maxChars, cwd, run).text| <= maxChars + |TruncationMarker|
  {
  }

  /**
   * A negative limit does not disable truncation: any non-empty output
   * is longer than it, and loses its last `-maxChars` characters.
   */
  lemma DiffNegativeLimit(staged: bool, maxChars: int, cwd: Context.Path, run: Runner)
    requires maxChars < 0 && DiffOutput(staged, cwd, run).code == 0
    ensures var out := DiffOutput(staged, cwd, run).out;
      Diff(staged, maxChars, cwd, run).text
        == out[..if |out| + maxChars > 0 then |out| + maxChars else 0] + TruncationMarker
  {
  }

  // ---------------------------------------------------------------------
  // Branches
  // ---------------------------------------------------------------------

  /** Substrings a branch name may not contain. */
  const ForbiddenFragments := ["..", "~", "^", ":", " ", "\\"]

  /** `any(x in name for x in [...])`. */
  predicate HasForbidden(name: string) {
    exists k :: 0 <= k < |ForbiddenFragments| && Contains(name, ForbiddenFragments[k])
  }

  /** The same test, a character at a time. */
  lemma HasForbiddenChars(name: string)
    ensures HasForbidden(name) <==>
      (Contains(name, "..") || '~' in name || '^' in name || ':' in name || ' ' in name || '\\' in name)
  {
    var f := ForbiddenFragments;
    assert f[0] == ".." && f[1] == ['~'] && f[2] == ['^'];
    assert f[3] == [':'] && f[4] == [' '] && f[5] == ['\\'];
    ContainsChar(name, '~');
    ContainsChar(name, '^');
    ContainsChar(name, ':');
    ContainsChar(name, ' ');
    ContainsChar(name, '\\');
    if HasForbidden(name) {
      var k :| 0 <= k < |f| && Contains(name, f[k]);
      assert k == 0 || k == 1 || k == 2 || k == 3 || k == 4 || k == 5;
    }
  }

  function CheckoutCommand(name: string, cwd: Context.Path): Command {
    Command(["git", "checkout", "-b", name], cwd, GitTimeout)
  }

  /**
   * `git checkout -b name`, refused before anything runs when the name
   * holds a forbidden fragment.
   */
  function CreateBranch(name: string, cwd: Context.Path, run: Runner): (r: Outcome)
    ensures r.ran == [] <==> HasForbidden(name)
    ensures HasForbidden(name) ==> r.text == "ERROR: invalid branch name"
    ensures !HasForbidden(name) ==> r.ran == [CheckoutCommand(name, cwd)]
    ensures !HasForbidden(name) ==> var res := Exec(CheckoutCommand(name, cwd), run);
      r.text == if res.code != 0 then "ERROR: git checkout -b failed\n" + res.out
                else "OK: on branch " + name
  {
    if HasForbidden(name) then Outcome("ERROR: invalid branch name", [])
    else
      var cmd := CheckoutCommand(name, cwd);
      var res := Exec(cmd, run);
      if res.code != 0 then Outcome("ERROR: git checkout -b failed\n" + res.out, [cmd])
      else Outcome("OK: on branch " + name, [cmd])
  }

  /** Whether `CreateBranch` switched to the new branch. */
  predicate BranchCreated(name: string, cwd: Context.Path, run: Runner) {
    !HasForbidden(name) && Exec(CheckoutCommand(name, cwd), run).code == 0
  }

  lemma BranchCreatedText(name: string, cwd: Context.Path, run: Runner)
    ensures BranchCreated(name, cwd, run) <==> CreateBranch(name, cwd, run).text == "OK: on branch " + name
  {
    if !HasForbidden(name) {
      var res := Exec(CheckoutCommand(name, cwd), run);
      if res.code != 0 {
        var e := "ERROR: git checkout -b failed\n" + res.out;
        assert e[0] != ("OK: on branch " + name)[0];
      }
    } else {
      assert "ERROR: invalid branch name"[0] != ("OK: on branch " + name)[0];
    }
  }

  // ---------------------------------------------------------------------
  // Commits
  // ---------------------------------------------------------------------

  function AddCommand(cwd: Context.Path): Command {
    Command(["git", "add", "-A"], cwd, GitTimeout)
  }

  function CommitCommand(message: string, cwd: Context.Path): Command {
    Command(["git", "commit", "-m", Strip(message)], cwd, GitTimeout)
  }

  /**
   * Stages everything and commits with the stripped message; a blank
   * message is refused before anything runs, and a failing `git add`
   * stops before the commit.
   */
  function CommitAll(message: string, cwd: Context.Path, run: Runner): (r: Outcome)
    ensures Strip(message) == [] ==> r == Outcome("ERROR: empty commit message", [])
    ensures Strip(message) != [] ==> |r.ran| >= 1 && r.ran[0] == AddCommand(cwd)
    ensures Strip(message) != [] && Exec(AddCommand(cwd), run).code != 0 ==>
      r == Outcome("ERROR: git add failed\n" + Exec(AddCommand(cwd), run).out, [AddCommand(cwd)])
    ensures Strip(message) != [] && Exec(AddCommand(cwd), run).code == 0 ==>
      r.ran == [AddCommand(cwd), CommitCommand(message, cwd)]
    ensures Strip(message) != [] && Exec(AddCommand(cwd), run).code == 0 && Exec(CommitCommand(message, cwd), run).code != 0 ==>
      r.text == "ERROR: git commit failed\n" + Exec(CommitCommand(message, cwd), run).out
    ensures Strip(message) != [] && Exec(AddCommand(cwd), run).code == 0 && Exec(CommitCommand(message, cwd), run).code == 0 ==>
      r.text == "OK: committed"
  {
    if Strip(message) == [] then Outcome("ERROR: empty commit message", [])
    else
      var add := Exec(AddCommand(cwd), run);
      if add.code != 0 then Outcome("ERROR: git add failed\n" + add.out, [AddCommand(cwd)])
      else
        var commit := Exec(CommitCommand(message, cwd), run);
        if commit.code != 0 then Outcome("ERROR: git commit failed\n" + commit.out, [AddCommand(cwd), CommitCommand(message, cwd)])
        else Outcome("OK: committed", [AddCommand(cwd), CommitCommand(message, cwd)])
  }

  /** No command runs exactly when the message is all whitespace. */
  lemma CommitAllBlank(message: string, cwd: Context.Path, run: Runner)
    ensures CommitAll(message, cwd, run).ran == [] <==> forall i :: 0 <= i < |message| ==> IsSpace(message[i])
  {
    StripEmpty(message);
  }

  /** "OK: committed" is reported exactly when both commands succeed. */
  lemma CommitAllSucceeds(message: string, cwd: Context.Path, run: Runner)
    ensures CommitAll(message, cwd, run).text == "OK: committed" <==>
      (Strip(message) != []
       && Exec(AddCommand(cwd), run).code == 0
       && Exec(CommitCommand(message, cwd), run).code == 0)
  {
    var ok := "OK: committed";
    assert "ERROR: empty commit message"[0] != ok[0];
    if Strip(message) != [] {
      var add := Exec(AddCommand(cwd), run);
      assert ("ERROR: git add failed\n" + add.out)[0] != ok[0];
      var commit := Exec(CommitCommand(message, cwd), run);
      assert ("ERROR: git commit failed\n" + commit.out)[0] != ok[0];
    }
  }
}
