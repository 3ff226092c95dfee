# relialimo_orchestra: a verified model of the dev orchestra's core

The dev orchestra drives a set of language-model agents through a software
repository: it maps the repository, plans a change, lets a coder agent edit
files through a small set of repository tools, runs the configured checks,
and hands the first failure to a debugger agent. This project models the
deterministic core of that system in Dafny and proves properties of the model:

- **Task configuration** (`config.dfy`, module `Config`). The six task
  names, `TaskSpec` (argv and directory), and loading from and dumping to
  the JSON form. It also covers detecting which tasks a Node
  (package.json) or Python repository has, and `load_or_detect_config`'s
  choice between an explicit file, the repository's own
  `.relialimo_orchestra.json` and detection.
- **Run context** (`context.dfy`, module `Context`). The `RepoContext`
  class holds the repository directory, the configuration, the session id
  and the mutable state dictionary. `abs_path` resolves a path lexically
  and refuses any result outside the repository root.
- **Git helpers** (`git.dfy`, module `Git`). These are shared by the
  orchestrator's `_git_*` functions and the tools' `git_*` functions:
  status, diff with truncation, the guarded `checkout -b`, and
  `add`/`commit`. Processes are never started. Each helper is given a
  *runner*, a function from a command to what the process reports. Besides
  its text, each helper returns the list of commands it asked to run, so
  "nothing runs when the input is refused" can be stated.
- **Orchestrator** (`orchestrator.dfy`, module `Orchestrator`):
  - the branch name derived from a goal;
  - the fixed task order, and `_run_tasks`, which runs the configured
    tasks up to the first failure;
  - the scan that finds the failure to report to the debugger.
- **Repository tools** (`tools.dfy`, module `Tools`):
  - the patch-safety guard and `apply_patch`;
  - the directory walk behind `list_files` and `search_repo`, and those two
    tools;
  - numbered `read_file`;
  - `run_task` and `git_create_branch`, which write the context's state.
- **Support.** `text.dfy` (module `Text`) holds the parts of Python's `str`
  that the core relies on: `isspace`, `strip`, `split`, `splitlines`,
  `join`, substring `in`, `str(int)`, right alignment and code-point
  ordering with `sorted`. `files.dfy` (module `Files`) holds the file
  system as an immutable tree. `results.dfy` (module `Results`) holds
  `Option` and `Result`.

How the model's pieces correspond to the program:

- **Python exceptions.** An exception the core raises is an `Err` carrying
  a message:
  - `ValueError` from `abs_path` or from `relative_to`;
  - `AttributeError` from a JSON value that is not an object.
- **The file system.** This is a `Files.Tree` of directories. Each lists
  its files (name, decoded text, size in bytes) and its named
  subdirectories, in the order the operating system lists them. The tree
  given to a tool is the one rooted at "/". Paths are sequences of
  components.
- **Path normalisation.** `Path.resolve()` is modelled lexically: empty
  and "." components are dropped, and ".." goes up one level, never above
  "/".
- **The clock.** The UTC timestamp of a branch name is a parameter.
- **Repeated keys.** A parsed JSON object is kept as its list of members
  in order. Where a key repeats, the lookup and the loading loop see only
  the last member with that key, as the dictionary `json.loads` builds
  does (`Config.Get`, `Config.CollectKeys`).

The program does some things that a reader may not expect; the model keeps them:

- `search_repo` reports at most `max(1, max_matches)` matches. It appends
  the truncation marker as soon as that many are collected, even when no
  further match exists (`Tools.CappedAnswer`, `Tools.SearchRepo`).
- `git diff` with a negative `max_chars` still truncates. Python's slice
  drops that many characters from the end (`Git.DiffNegativeLimit`).
- `_run_tasks` never runs the install task, even when one is configured
  (`Orchestrator.RunNeverInstalls`).
- A slug cut at 40 characters may end with '-'. Only a leading dash and a
  double dash are excluded (`Orchestrator.Slug`).
- `list_files` and `search_repo` compute paths relative to the repository
  directory as given, but walk the resolved root.
  - When the directory as given is not already resolved, `relative_to`
    raises. The model returns `Err` there.
  - Over a resolved directory this cannot happen
    (`Context.RepoContext.RelativeToRoot`, `Tools.ListLinesPaths`).
- The scan for the first failure stops at the first task whose entry is not
  ok. Over a status that `_run_tasks` built, that is exactly the failure
  the run ended with (`Orchestrator.FailureOfRun`).

## Model

| member | source | states |
|---|---|---|
| Config.TaskNamed | relialimo_orchestra/config.py:8 | a key names a task exactly when it is one of the six literal task names, and then that task's name is the key |
| Config.TaskNamedName | relialimo_orchestra/config.py:8 | every task name maps back to its own task, so the names are distinct |
| Config.Get | relialimo_orchestra/config.py:30 | `dict.get` finds a value exactly when some member has that key (the last duplicate wins, as `json.loads` keeps it) |
| Config.Encode | relialimo_orchestra/config.py:41 | the JSON list written for an argv is a list of strings that reads back as that argv |
| Config.CollectTasks | relialimo_orchestra/config.py:31-37 | every task the loading loop keeps has the default directory "." |
| Config.LoadValue | relialimo_orchestra/config.py:27-38 | `load` raises AttributeError exactly when the top level is not an object or its "tasks" member is present but not an object; a missing "tasks" gives no tasks; every loaded task runs in "." |
| Config.Load | relialimo_orchestra/config.py:27-38 | the loading loop equals `LoadValue` on the parsed file: AttributeError for a top level or "tasks" value that is not an object, else the collected tasks |
| Config.CollectKeys | relialimo_orchestra/config.py:30-37 | a task is loaded exactly when the parsed "tasks" object has its key and the value it keeps there (the last of repeated members) is a list of strings; other keys and other values are ignored |
| Config.CollectArgv | relialimo_orchestra/config.py:30-37 | a loaded task's argv is exactly the list the parsed object keeps under its key, and its directory is "." |
| Config.CollectRepeatedKey | relialimo_orchestra/config.py:30-37 | a later "lint" member that is not a list of strings removes the task an earlier "lint" list defined |
| Config.LoadKeepsStringListTasks | relialimo_orchestra/config.py:27-38 | for an object whose "tasks" member is an object, loading succeeds and keeps exactly the allowed keys whose kept value is a list of strings, each with that list and "." |
| Config.DumpTasks | relialimo_orchestra/config.py:40-41 | every member written names a configured task, and the member under a task's name is its argv exactly for the configured tasks among those written |
| Config.Dump | relialimo_orchestra/config.py:40-41 | `dump` writes an object whose only member is "tasks"; that object's keys all name configured tasks, and under each task's name it holds the argv exactly when the task is configured |
| Config.LoadDump | relialimo_orchestra/config.py:27-41 | loading what `dump` wrote gives back the same configuration whenever every directory is "." (`dump` does not write directories) |
| Config.PackageManager | relialimo_orchestra/config.py:61-68 | pnpm when pnpm-lock.yaml exists, else yarn for yarn.lock, else bun for bun.lockb or bun.lock, else npm; each answer if and only if its condition |
| Config.DefaultConfig | relialimo_orchestra/config.py:52-119 | every detected task runs in "." |
| Config.DetectDefaultConfig | relialimo_orchestra/config.py:52-119 | the step-by-step detection equals `DefaultConfig`, including the AttributeError for a package.json that is not an object |
| Config.DetectNodeTasks | relialimo_orchestra/config.py:77-99 | the package.json branch sets exactly those tasks `NodeTasks` gives for all six names |
| Config.AddScriptTask | relialimo_orchestra/config.py:89-99 | adding the format, lint, typecheck or build step extends the detected tasks by that task exactly when its script exists, as `[pm, "run", name]` |
| Config.AddTestTask | relialimo_orchestra/config.py:96-97 | the test step adds `[pm, "test"]` exactly for a present, truthy test script other than npm's placeholder |
| Config.DetectInstallSpec | relialimo_orchestra/config.py:77-87 | the install step's command for each package manager |
| Config.DetectPythonTasks | relialimo_orchestra/config.py:103-116 | the Python branch sets exactly those tasks `PythonTasks` gives |
| Config.DetectInstall | relialimo_orchestra/config.py:77-87 | a package.json repository always gets install; `npm ci` if and only if npm with package-lock.json, frozen lockfiles for yarn and pnpm, `bun install` for bun, else `npm install` |
| Config.DetectScripts | relialimo_orchestra/config.py:89-99 | format, lint, typecheck and build are detected if and only if package.json names that script; test if and only if the script is present, truthy and not the placeholder |
| Config.DetectPython | relialimo_orchestra/config.py:103-116 | without package.json, a Python project gets exactly test, lint and format, plus install if and only if requirements.txt exists; test runs pytest |
| Config.DetectNothing | relialimo_orchestra/config.py:118-119 | with no project file, nothing is detected |
| Config.DetectNodeFirst | relialimo_orchestra/config.py:59-101 | package.json takes precedence: no detected command of a package.json repository is a python command |
| Config.DetectedRoundTrip | relialimo_orchestra/config.py:27-119 | every detected configuration survives `dump` followed by `load` unchanged |
| Config.LoadOrDetectConfig | relialimo_orchestra/config.py:121-128 | an explicit file that exists is loaded; else the repository's own configuration file if it exists; else detection runs |
| Config.LoadFile | relialimo_orchestra/config.py:28-29 | a missing file or one that is not JSON never loads; a parsed one loads as `LoadValue` |
| Config.LocalConfig | relialimo_orchestra/config.py:124-126 | the repository's own configuration file is missing exactly when `.relialimo_orchestra.json` does not exist, and parsed, with its value, exactly when it exists and holds JSON |
| Config.ReadAndLoad | relialimo_orchestra/config.py:28-29 | reading an existing file raises on text that is not JSON, else loads it |
| Context.Resolve | relialimo_orchestra/context.py:22-23 | a resolved path has no empty, "." or ".." component |
| Context.ResolveIdempotent | relialimo_orchestra/context.py:22-23 | resolving an already resolved path changes nothing |
| Context.ParentsOrSelf | relialimo_orchestra/context.py:24 | the test "root in p.parents or p == root" holds exactly when the root is a prefix of p |
| Context.PathStr | relialimo_orchestra/tools_repo.py:74 | `str(Path(s))` is never empty and keeps the leading "/" of an absolute path |
| Context.RelativeTo | relialimo_orchestra/tools_repo.py:79 | `relative_to` succeeds exactly when the base is a prefix, and base followed by the result is the path |
| Context.RepoContext.constructor | relialimo_orchestra/context.py:9-18 | a new context holds the given directory and configuration, the default session id and an empty state |
| Context.RepoContext.WithSession | relialimo_orchestra/context.py:9-18 | a new context for a named session holds that id and an empty state |
| Context.RepoContext.Root | relialimo_orchestra/context.py:23 | the repository root is resolved |
| Context.RepoContext.AbsPath | relialimo_orchestra/context.py:20-26 | accepted exactly when the resolved candidate is the root or lies beneath it; then the candidate is returned; else ValueError "Path escapes repo: <rel>" |
| Context.RepoContext.RelativeToRoot | relialimo_orchestra/context.py:20-26 | over a resolved repository directory, every path `abs_path` accepts is relative to the directory |
| Context.RepoContext.AbsPathDot | relialimo_orchestra/context.py:20-26 | "." names the root itself |
| Context.RepoContext.AbsPathPlain | relialimo_orchestra/context.py:20-26 | a relative path without ".." is always accepted and lands at the root followed by its components |
| Context.RepoContext.AbsPathBalanced | relialimo_orchestra/context.py:20-26 | a relative path whose ".." components never climb above their starting point is accepted |
| Git.Exec | relialimo_orchestra/tools_repo.py:206-219 | `_run` gives the process's own return code, and its output (`Combined`) has no whitespace at either end |
| Git.Combined | relialimo_orchestra/tools_repo.py:214-219 | `_run`'s output is stripped at both ends; it is the stripped stdout when stderr is empty, and the stripped stderr when stdout is empty |
| Git.Status | relialimo_orchestra/tools_repo.py:244-250 | runs exactly `git status --porcelain=v1` with a 60 s limit; the error text on failure, else the output, else "(clean)" (the same as `_git_status`, orchestrator.py:82-86) |
| Git.DiffArgv | relialimo_orchestra/tools_repo.py:256-258 | the diff command starts with `git diff`, and is the staged form if and only if staged |
| Git.Diff | relialimo_orchestra/tools_repo.py:253-264 | runs exactly the one diff command with a 60 s limit |
| Git.DiffFailure | relialimo_orchestra/tools_repo.py:260-261 | a failing diff gives "ERROR: git diff failed" and git's output |
| Git.DiffSuccess | relialimo_orchestra/tools_repo.py:262-264 | a successful diff within the limit comes back unchanged ("(no diff)" when empty); one over a non-negative limit is its first `max_chars` characters and the marker |
| Git.DiffBounded | relialimo_orchestra/tools_repo.py:262-263 | with a non-negative limit the answer is at most the limit plus the marker long |
| Git.DiffNegativeLimit | relialimo_orchestra/tools_repo.py:262-263 | a negative limit still truncates: the output minus its last `-max_chars` characters, then the marker |
| Git.HasForbiddenChars | relialimo_orchestra/tools_repo.py:275 | the fragment test is "..", or any of the characters `~ ^ :`, space, backslash |
| Git.CreateBranch | relialimo_orchestra/orchestrator.py:99-105 | a name with a forbidden fragment is refused and nothing runs; else exactly `git checkout -b name` runs; failure and success texts |
| Git.BranchCreatedText | relialimo_orchestra/tools_repo.py:277-281 | git switched to the branch exactly when the answer is "OK: on branch <name>" |
| Git.CommitAll | relialimo_orchestra/orchestrator.py:108-117 | a blank message runs nothing; else `git add -A` runs first; a failing add stops before the commit; else add then commit with the stripped message, answering "ERROR: git commit failed" and the output when the commit fails, else "OK: committed" |
| Git.CommitAllBlank | relialimo_orchestra/tools_repo.py:291-292 | no command runs exactly when the message is whitespace only |
| Git.CommitAllSucceeds | relialimo_orchestra/tools_repo.py:284-299 | "OK: committed" is answered exactly when the message is not blank and both commands exit with 0 |
| Orchestrator.MapChar | relialimo_orchestra/orchestrator.py:50 | each goal character becomes a slug character, and it is not '-' exactly when it was an ASCII letter or digit |
| Orchestrator.NonEmpty | relialimo_orchestra/orchestrator.py:51 | the kept parts are non-empty parts of the input, and none is kept exactly when all are empty |
| Orchestrator.JoinWords | relialimo_orchestra/orchestrator.py:51 | dash-joined words form a well-formed slug that does not end with a dash |
| Orchestrator.HeadWellFormed | relialimo_orchestra/orchestrator.py:51 | cutting a well-formed slug keeps it well-formed |
| Orchestrator.SlugParts | relialimo_orchestra/orchestrator.py:50-51 | every part of the split, stripped, lower-cased goal is a non-empty word of letters and digits |
| Orchestrator.Slug | relialimo_orchestra/orchestrator.py:50-51 | the slug is at most 40 characters of lower-case letters, digits and single inner dashes, with no leading dash; it is empty exactly when there are no parts |
| Orchestrator.SlugPartsFromAlnum | relialimo_orchestra/orchestrator.py:50-51 | a letter or digit anywhere in the goal gives the slug a part |
| Orchestrator.SlugPartsWithoutAlnum | relialimo_orchestra/orchestrator.py:50-51 | a goal without letters or digits gives no part |
| Orchestrator.SlugEmpty | relialimo_orchestra/orchestrator.py:50-53 | the slug is empty, and "change" is used, exactly when the goal has no ASCII letter or digit |
| Orchestrator.BranchName | relialimo_orchestra/orchestrator.py:49-53 | the name is "ai/" + timestamp + "_" followed by the slug, or by "change" when the slug is empty |
| Orchestrator.BranchNameAllowed | relialimo_orchestra/orchestrator.py:52-53 | every name built from a timestamp of digits and dashes passes the forbidden-fragment check of `_git_create_branch` (line 100) |
| Orchestrator.BranchCharsAllowed | relialimo_orchestra/orchestrator.py:100 | a name of lower-case letters, digits and `-_/` holds no forbidden fragment |
| Orchestrator.TaskOrderDistinct | relialimo_orchestra/orchestrator.py:26 | the five tasks of the order are distinct and install is not among them |
| Orchestrator.Attempt | relialimo_orchestra/orchestrator.py:127-135 | a configured task's entry records its return code, ok exactly when that is 0, the space-joined argv and the last 4000 characters of its output |
| Orchestrator.EntryAt | relialimo_orchestra/orchestrator.py:122-135 | task i of the order is recorded under its name, as skipped exactly when it is not configured, else as its attempt |
| Orchestrator.RunFrom | relialimo_orchestra/orchestrator.py:120-138 | the status from task `i` on is empty exactly when no task of the order remains: each remaining step records at least its own entry |
| Orchestrator.RunFromUnfold | relialimo_orchestra/orchestrator.py:122-137 | each step records this task's entry, then stops if it failed, else goes on with the next task |
| Orchestrator.RunTasks | relialimo_orchestra/orchestrator.py:120-138 | the loop builds exactly the status `RunFrom` specifies from the first task of the order |
| Orchestrator.RunOne | relialimo_orchestra/orchestrator.py:123-137 | one round appends this task's entry and stops exactly where the specification ends |
| Orchestrator.RunFromEntries | relialimo_orchestra/orchestrator.py:120-138 | entry k of the status is task k of the order, skipped exactly when unconfigured, else its attempt; there are at most five entries |
| Orchestrator.RunFromNoEarlyFailure | relialimo_orchestra/orchestrator.py:136-137 | no entry before the last is a failure |
| Orchestrator.RunFromShortEndsInFailure | relialimo_orchestra/orchestrator.py:136-137 | a status shorter than the order ends in a failure |
| Orchestrator.RunFromStops | relialimo_orchestra/orchestrator.py:120-138 | only the last entry can be a failure, and the run stops short only by ending in one |
| Orchestrator.RunNeverInstalls | relialimo_orchestra/orchestrator.py:120-138 | `_run_tasks` never records (and so never runs) the install task |
| Orchestrator.RunAllSucceed | relialimo_orchestra/orchestrator.py:120-138 | when every configured task of the order succeeds, all five tasks are recorded |
| Orchestrator.Lookup | relialimo_orchestra/orchestrator.py:278 | `status.get(t)` finds nothing exactly when no entry is for t |
| Orchestrator.LookupFound | relialimo_orchestra/orchestrator.py:278 | a value found is the value of an entry for that task |
| Orchestrator.Report | relialimo_orchestra/orchestrator.py:283 | the report begins with the task's name and ": ", and ends with the recorded output tail |
| Orchestrator.FailureFrom | relialimo_orchestra/orchestrator.py:277-284 | nothing is found exactly when no task of the order from `i` on has a first entry that is not ok; otherwise the report is that of the first such task |
| Orchestrator.ScanTask | relialimo_orchestra/orchestrator.py:278-284 | one round of the scan stops with a report exactly where `FailureFrom` reports that task, and otherwise leaves the rest of the scan unchanged |
| Orchestrator.FirstFailure | relialimo_orchestra/orchestrator.py:274-284 | the scan reports a failure exactly when `FailureFrom` finds one, with its "task: cmd" line and output tail, else reports nothing |
| Orchestrator.RunIsShaped | relialimo_orchestra/orchestrator.py:120-138 | a status built by `_run_tasks` follows `TaskOrder` and has no failure before its last entry |
| Orchestrator.LookupRun | relialimo_orchestra/orchestrator.py:278 | in such a status each task's entry is found at its own position, and a task past the end is missing |
| Orchestrator.FailureOfRun | relialimo_orchestra/orchestrator.py:274-284 | over a status `_run_tasks` built, the scan reports a failure exactly when the run ended in one, and reports that last task |
| Tools.FirstMarker | relialimo_orchestra/tools_repo.py:126-129 | finds the first absolute-path marker the patch contains, and none exactly when it contains none |
| Tools.SafetyVerdict | relialimo_orchestra/tools_repo.py:124-135 | an accepted patch gets "OK", and every refusal message starts with "Unsafe patch: contains " |
| Tools.PatchIsSafe | relialimo_orchestra/tools_repo.py:124-135 | the two loops give `SafetyVerdict`: the first marker found in order, else the parent-traversal refusal, else (true, "OK") |
| Tools.SafetyVerdictIff | relialimo_orchestra/tools_repo.py:124-135 | a patch is accepted exactly when it holds no marker and no header line with "../" or "..\"; accepted exactly when the message is "OK" |
| Tools.AbsoluteHeaderRefused | relialimo_orchestra/tools_repo.py:126-129 | a "+++ /" or "--- /" header after a line break is always refused |
| Tools.ApplyPatch | relialimo_orchestra/tools_repo.py:138-168 | an unsafe patch runs nothing and answers "ERROR: " + reason; a safe one runs exactly `git apply` and answers OK, or stderr (else stdout) on failure |
| Tools.Kept | relialimo_orchestra/tools_repo.py:42-52 | the entered subdirectories are exactly those neither ignored nor (unless asked) hidden |
| Tools.Shown | relialimo_orchestra/tools_repo.py:54-57 | the reported files are files of the directory, at its path, never hidden unless asked |
| Tools.PruneDirs | relialimo_orchestra/tools_repo.py:43-52 | the pruning loop leaves exactly `Kept` |
| Tools.ShowFiles | relialimo_orchestra/tools_repo.py:54-57 | the file loop reports exactly `Shown` |
| Tools.Walk | relialimo_orchestra/tools_repo.py:30-58 | nothing is collected from a directory deeper than `max_depth`, and every collected path lies strictly below the directory walked |
| Tools.Below | relialimo_orchestra/tools_repo.py:33-52 | the walks of the remaining subdirectories collect only paths strictly below the directory |
| Tools.WalkDir | relialimo_orchestra/tools_repo.py:30-58 | the walk reports exactly `Walk`: a directory's files, then its kept subdirectories' walks, nothing deeper than `max_depth` |
| Tools.WalkSound | relialimo_orchestra/tools_repo.py:30-58 | every reported file exists at its path, under no ignored or (unless asked) hidden directory, within the depth |
| Tools.WalkComplete | relialimo_orchestra/tools_repo.py:30-58 | every such file is reported |
| Tools.WalkExact | relialimo_orchestra/tools_repo.py:30-58 | a file is reported if and only if it is reachable |
| Tools.RelPaths | relialimo_orchestra/tools_repo.py:79 | relative paths exist exactly when every walked file lies below the repository directory as given |
| Tools.CutList | relialimo_orchestra/tools_repo.py:81-82 | up to 2000 lines are kept unchanged; more become the first 2000 and the marker |
| Tools.ListFiles | relialimo_orchestra/tools_repo.py:61-83 | escaping path: the ValueError; missing path: the error text; a file: `str(Path(path))`; a directory: the sorted, cut relative paths of its walk, or ValueError when not relative |
| Tools.ListLines | relialimo_orchestra/tools_repo.py:76-83 | the listing fails (the `relative_to` error) exactly when some walked file is not below the repository directory as given, and otherwise has at most 2001 lines |
| Tools.ListLinesShape | relialimo_orchestra/tools_repo.py:79-83 | the listing is sorted and at most 2001 lines; uncut, it is a permutation of the relative paths; cut, it is the first 2000 sorted paths and the marker |
| Tools.ListLinesPaths | relialimo_orchestra/tools_repo.py:76-79 | below the repository directory the listing never fails and holds every walked file's relative path |
| Tools.NumberLines | relialimo_orchestra/tools_repo.py:101-103 | the numbering loop gives exactly `Numbered` |
| Tools.NumberedLineText | relialimo_orchestra/tools_repo.py:103 | a numbered line is the number right-aligned in six columns (exactly six below a million), " \| ", then the line |
| Tools.NumberedShape | relialimo_orchestra/tools_repo.py:99-103 | there are max(0, end - start + 1) numbered lines, numbered consecutively from start, each with that line's text |
| Tools.ReadFile | relialimo_orchestra/tools_repo.py:86-105 | escaping path: ValueError; not a file: the error text; else the header with max(1, start), min(count, end) and the count, then the numbered lines |
| Tools.ScanLines | relialimo_orchestra/tools_repo.py:198-202 | the line loop appends the file's hits, and stops exactly when the cap is reached, keeping the first `Cap` |
| Tools.ScanFile | relialimo_orchestra/tools_repo.py:185-202 | one file of the loop is one `ScanStep`: skipped when large or without the query, the ValueError when not relative, else its hits |
| Tools.ScanNext | relialimo_orchestra/tools_repo.py:183-202 | one round either settles the final answer or extends the collected hits by one file |
| Tools.ScanAll | relialimo_orchestra/tools_repo.py:181-203 | the file loop's answer is `SearchAnswer` of all files' hits |
| Tools.SearchRepo | relialimo_orchestra/tools_repo.py:171-203 | the answer is `SearchAnswer` over the walk of the resolved root (25 levels, hidden excluded) |
| Tools.SearchAnswer | relialimo_orchestra/tools_repo.py:196-203 | the answer is the `relative_to` error exactly when the scan stopped there before the cap was reached; once the cap is reached it ends with the truncation marker; below the cap it is the rendered hits joined by newlines, or "NO MATCHES" exactly when there are none |
| Tools.SearchNoMatches | relialimo_orchestra/tools_repo.py:183-203 | over all walked files, the answer is "NO MATCHES" exactly when the scan met no `relative_to` error and no scanned file has a line holding the query |
| Tools.CappedAnswer | relialimo_orchestra/tools_repo.py:201-202 | once `max(1, max_matches)` hits are collected, the answer is those hits and the marker, whatever follows |
| Tools.LineHitsSound | relialimo_orchestra/tools_repo.py:198-200 | each hit of a file is a 1-based line number of a line holding the query |
| Tools.LineHitsComplete | relialimo_orchestra/tools_repo.py:198-200 | every line holding the query is a hit |
| Tools.CollectSound | relialimo_orchestra/tools_repo.py:183-200 | every collected hit is a line holding the query in a scanned (small, query-holding) walked file |
| Tools.CollectComplete | relialimo_orchestra/tools_repo.py:183-200 | unless the scan stopped at an error, every line holding the query in a scanned file is collected, under its relative path |
| Tools.Verdict | relialimo_orchestra/tools_repo.py:238 | "OK" for exit code 0, else a text starting with "FAIL(" |
| Tools.TaskReport | relialimo_orchestra/tools_repo.py:238-241 | the reply of `run_task` starts with "OK: " for exit code 0 and with "FAIL(" otherwise |
| Tools.TaskReportOk | relialimo_orchestra/tools_repo.py:238-241 | the reply starts with "OK:" exactly when its process exited with 0 |
| Tools.TaskReportTail | relialimo_orchestra/tools_repo.py:239-241 | the reply ends with the output's last characters, at most 4000 of them |
| Tools.RunTask | relialimo_orchestra/tools_repo.py:222-241 | an unconfigured task runs nothing and leaves the state unchanged; a configured one runs exactly its command and records code and output tail under "task:<name>" |
| Tools.TaskKeyInjective | relialimo_orchestra/tools_repo.py:237 | different tasks are recorded under different keys |
| Tools.CreateBranchTool | relialimo_orchestra/tools_repo.py:267-281 | answers as `Git.CreateBranch`, and records the branch under "branch" exactly when git switched to it |
| Text.StripBy | relialimo_orchestra/orchestrator.py:50 | `strip` leaves a slice of the input with only stripped characters around it, and neither end stripped |
| Text.StripByChars | relialimo_orchestra/orchestrator.py:50 | stripping keeps every character not stripped and adds none |
| Text.Strip | relialimo_orchestra/tools_repo.py:219 | `strip()` never lengthens the text and leaves no whitespace at either end |
| Text.StripEmpty | relialimo_orchestra/tools_repo.py:291 | `not s.strip()` holds exactly for whitespace-only strings |
| Text.Split | relialimo_orchestra/orchestrator.py:51 | `split` gives at least one piece; no piece holds the separator, and every character of a piece is in the input |
| Text.JoinSplit | relialimo_orchestra/orchestrator.py:51 | joining the pieces of a split with the separator gives back the string |
| Text.SplitLines | relialimo_orchestra/tools_repo.py:98 | no line holds a line break, and there are no lines exactly for the empty text |
| Text.Sort | relialimo_orchestra/tools_repo.py:80 | `sort` gives a sorted permutation of the paths |
| Text.LexLeTotal | relialimo_orchestra/tools_repo.py:80 | Python's string order is total |
| Text.LexLeAntisymmetric | relialimo_orchestra/tools_repo.py:80 | and antisymmetric |
| Text.LexLeTransitive | relialimo_orchestra/tools_repo.py:80 | and transitive |
| Text.Tail | relialimo_orchestra/tools_repo.py:240 | `s[-n:]` is the last min(n, len) characters |
| Text.PadLeft | relialimo_orchestra/tools_repo.py:103 | right alignment pads with spaces to the width and never cuts |
| Text.NatStr | relialimo_orchestra/tools_repo.py:103 | `str(n)` is decimal digits without a leading zero |

## Left out

- The agent pipeline is not part of this model: `run_orchestra`, the agents, the prompts, the command line, the sessions, and the retries with random backoff and sleeping around API calls. All of it is I/O against a language-model service.
- `write_file` is left out: the file system is an immutable tree given to each tool. The "bytes" it reports are `len(content)`, which counts characters.
- Processes are a total function. Timeouts, a missing executable and other exceptions of `subprocess.run` are not modelled. This covers the orchestrator's catch that turns them into `(1, "ERROR running command …")`. The tool's `_run` has no such catch.
- `apply_patch`'s temporary file is a parameter: the patch path. Writing and removing that file are not modelled.
- `search_repo` ignores stat and read errors (OSError) and skips the file. The model has none: every file has a size and a text, and the text is the UTF-8 decoding with replacement characters.
- Symbolic links are not modelled: `resolve()` is lexical, and the walk never meets a link. POSIX's special leading "//" is not modelled either.
- `os.walk`'s order follows the tree's listing order, which the model takes as given.
- JSON parsing is not modelled: the model starts from the value `json.loads` returns. Floats are not among those values. The detected package.json is given parsed, which covers `_read_text_if_exists`'s 200 000-byte cap and the decoding, and the configuration file's BOM-tolerant reading.
- `Config.LoadFile`: a configuration "file" that is a directory is treated like unparsable text. The exception messages are placeholders, not Python's exact texts.
- The key order of the `dump` dictionary is not modelled: `dump` writes tasks in the fixed order of the six task names.
- The state dictionary's values are records. The orchestrator's status is built as a sequence of entries in insertion order.
- A task name outside the six literals cannot be given to `run_task`: the agents' tool schema restricts it, so task names are a datatype.
- `Orchestrator.Slug`: a non-ASCII letter or digit is treated as a separator. Python's `isalnum` and `lower` would keep some of them and lower-case them.
- `Context.RepoContext.RelativeToRoot`: stated only for an already resolved repository directory. Over an unresolved one, `list_files` and `search_repo` return the `relative_to` error (`Err`).
- `Git.Combined`: when both streams are non-empty, the contract states only that the result is stripped. The exact text follows from the definition.
