/**
 * Task configuration of the dev orchestra: which named tasks exist and the
 * argv each one runs. A configuration is read from an already parsed JSON
 * value, written back to one, or detected from the files at the root of a
 * repository.
 */
module Config {
  import opened Results
  import opened Text

  // ---------------------------------------------------------------------
  // Task names and specs
  // ---------------------------------------------------------------------

  /** The six task names a configuration may hold. */
  datatype TaskName = Install | Format | Lint | Typecheck | Test | Build

  function Name(t: TaskName): string {
    match t
    case Install => "install"
    case Format => "format"
    case Lint => "lint"
    case Typecheck => "typecheck"
    case Test => "test"
    case Build => "build"
  }

  const AllTaskNames: seq<TaskName> := [Install, Format, Lint, Typecheck, Test, Build]

  lemma AllTaskNamesComplete(t: TaskName)
    ensures t in AllTaskNames
  {
  }

  /** Which task a JSON key names, if it is one of the six allowed keys. */
  function TaskNamed(k: string): (r: Option<TaskName>)
    ensures r.Some? ==> Name(r.value) == k
    ensures r.None? ==> forall t: TaskName :: Name(t) != k
  {
    if k == "install" then Some(Install)
    else if k == "format" then Some(Format)
    else if k == "lint" then Some(Lint)
    else if k == "typecheck" then Some(Typecheck)
    else if k == "test" then Some(Test)
    else if k == "build" then Some(Build)
    else None
  }

  lemma TaskNamedName(t: TaskName)
    ensures TaskNamed(Name(t)) == Some(t)
  {
  }

  /** A runnable task: the argv (run without a shell) and its directory. */
  datatype TaskSpec = TaskSpec(argv: seq<string>, cwd: string)

  /** A spec with the default working directory ".". */
  function Spec(argv: seq<string>): TaskSpec {
    TaskSpec(argv, ".")
  }

  datatype OrchestraConfig = OrchestraConfig(tasks: map<TaskName, TaskSpec>)

  // ---------------------------------------------------------------------
  // Parsed JSON values
  // ---------------------------------------------------------------------

  /** A value as `json.loads` returns it; an object keeps its members in order. */
  datatype Json =
    | JNull
    | JBool(b: bool)
    | JInt(n: int)
    | JString(s: string)
    | JArray(items: seq<Json>)
    | JObject(members: seq<(string, Json)>)

  /** Python truthiness of a parsed value. */
  predicate Truthy(v: Json) {
    match v
    case JNull => false
    case JBool(b) => b
    case JInt(n) => n != 0
    case JString(s) => s != ""
    case JArray(xs) => xs != []
    case JObject(ms) => ms != []
  }

  /** `dict.get(key)`: the last member with that key wins, as in `json.loads`. */
  function Get(ms: seq<(string, Json)>, key: string): (r: Option<Json>)
    ensures r.Some? <==> exists j :: 0 <= j < |ms| && ms[j].0 == key
    decreases |ms|
  {
    if ms == [] then None
    else if ms[|ms| - 1].0 == key then Some(ms[|ms| - 1].1)
    else
      var r := Get(ms[..|ms| - 1], key);
      assert forall j :: 0 <= j < |ms| - 1 ==> ms[..|ms| - 1][j] == ms[j];
      r
  }

  /** `key in d`. */
  predicate HasKey(ms: seq<(string, Json)>, key: string) {
    Get(ms, key).Some?
  }

  /** `isinstance(v, list) and all(isinstance(x, str) for x in v)`. */
  predicate IsStringList(v: Json) {
    v.JArray? && forall i :: 0 <= i < |v.items| ==> v.items[i].JString?
  }

  /** `list(v)` for a list of strings. */
  function Strings(v: Json): (r: seq<string>)
    requires IsStringList(v)
    ensures |r| == |v.items|
    ensures forall i :: 0 <= i < |r| ==> v.items[i] == JString(r[i])
  {
    seq(|v.items|, i requires 0 <= i < |v.items| => v.items[i].s)
  }

  /** The JSON list of an argv. */
  function Encode(argv: seq<string>): (v: Json)
    ensures IsStringList(v) && Strings(v) == argv
  {
    JArray(seq(|argv|, i requires 0 <= i < |argv| => JString(argv[i])))
  }

  // ---------------------------------------------------------------------
  // load and dump
  // ---------------------------------------------------------------------

  /**
   * The map of tasks that the loading loop builds from the members of the
   * "tasks" object, one member at a time. An allowed key with a list of
   * strings (re)defines that task. An allowed key with any other value
   * removes it: in the parsed object a later member replaces the value of
   * an earlier one with the same key. Other keys are ignored.
   */
  function CollectTasks(ms: seq<(string, Json)>): (r: map<TaskName, TaskSpec>)
    ensures forall t :: t in r ==> r[t].cwd == "."
    decreases |ms|
  {
    if ms == [] then map[]
    else
      var prev := CollectTasks(ms[..|ms| - 1]);
      var t := TaskNamed(ms[|ms| - 1].0);
      var v := ms[|ms| - 1].1;
      if t.None? then prev
      else if IsStringList(v) then prev[t.value := Spec(Strings(v))]
      else prev - {t.value}
  }

  /**
   * `OrchestraConfig.load` on the parsed file content. A top level that is
   * not an object, or a "tasks" member that is not one, makes Python raise
   * AttributeError.
   */
  function LoadValue(data: Json): (r: Result<OrchestraConfig>)
    ensures r.Err? <==> !data.JObject? || (HasKey(data.members, "tasks") && !Get(data.members, "tasks").value.JObject?)
    ensures data.JObject? && !HasKey(data.members, "tasks") ==> r == Ok(OrchestraConfig(map[]))
    ensures r.Ok? ==> forall t :: t in r.value.tasks ==> r.value.tasks[t].cwd == "."
  {
    if !data.JObject? then Err("AttributeError: top-level JSON value has no attribute 'get'")
    else
      var raw := Get(data.members, "tasks");
      var tasks := if raw.Some? then raw.value else JObject([]);
      if !tasks.JObject? then Err("AttributeError: 'tasks' value has no attribute 'items'")
      else Ok(OrchestraConfig(CollectTasks(tasks.members)))
  }

  /** The loading loop over the members of "tasks". */
  method Load(data: Json) returns (r: Result<OrchestraConfig>)
    ensures r == LoadValue(data)
  {
    if !data.JObject? {
      return Err("AttributeError: top-level JSON value has no attribute 'get'");
    }
    var raw := Get(data.members, "tasks");
    var rawTasks := if raw.Some? then raw.value else JObject([]);
    if !rawTasks.JObject? {
      return Err("AttributeError: 'tasks' value has no attribute 'items'");
    }
    var ms := rawTasks.members;
    var tasks: map<TaskName, TaskSpec> := map[];
    var i := 0;
    while i < |ms|
      invariant 0 <= i <= |ms|
      invariant tasks == CollectTasks(ms[..i])
    {
      assert ms[..i + 1][..i] == ms[..i];
      var k := TaskNamed(ms[i].0);
      var v := ms[i].1;
      if k.None? {
        i := i + 1;
        continue;
      }
      if !IsStringList(v) {
        // a later member with this key replaces the earlier value
        tasks := tasks - {k.value};
        i := i + 1;
        continue;
      }
      tasks := tasks[k.value := Spec(Strings(v))];
      i := i + 1;
    }
    assert ms[..|ms|] == ms;
    r := Ok(OrchestraConfig(tasks));
  }

  /** `dict.get` on one more member: that member when it has the key, else as before. */
  lemma GetSnoc(ms: seq<(string, Json)>, m: (string, Json))
    ensures forall key :: Get(ms + [m], key) == if m.0 == key then Some(m.1) else Get(ms, key)
  {
    assert (ms + [m])[..|ms|] == ms;
  }

  /**
   * A task is loaded exactly when its key is in the parsed "tasks" object
   * and the value the object keeps for it, the last one, is a list of strings.
   */
  lemma {:induction false} CollectKeys(ms: seq<(string, Json)>, t: TaskName)
    ensures t in CollectTasks(ms) <==> HasKey(ms, Name(t)) && IsStringList(Get(ms, Name(t)).value)
    decreases |ms|
  {
    if ms != [] {
      var init := ms[..|ms| - 1];
      CollectKeys(init, t);
      assert ms == init + [ms[|ms| - 1]];
      GetSnoc(init, ms[|ms| - 1]);
      TaskNamedName(t);
    }
  }

  /** A loaded task's argv is exactly the list the parsed object keeps under its key, with directory ".". */
  lemma {:induction false} CollectArgv(ms: seq<(string, Json)>, t: TaskName)
    ensures t in CollectTasks(ms) ==>
      var g := Get(ms, Name(t));
      g.Some? && IsStringList(g.value) && CollectTasks(ms)[t] == TaskSpec(Strings(g.value), ".")
    decreases |ms|
  {
    if ms != [] {
      var init := ms[..|ms| - 1];
      CollectArgv(init, t);
      CollectKeys(ms, t);
      assert ms == init + [ms[|ms| - 1]];
      GetSnoc(init, ms[|ms| - 1]);
      TaskNamedName(t);
    }
  }

  /** A later member that is not a list of strings undoes an earlier definition of the same task. */
  lemma CollectRepeatedKey()
    ensures CollectTasks([("lint", JArray([JString("x")])), ("lint", JInt(1))]) == map[]
  {
    var ms := [("lint", JArray([JString("x")])), ("lint", JInt(1))];
    assert ms[..1] == [("lint", JArray([JString("x")]))];
    assert ms[..1][..0] == [];
  }

  /**
   * What `load` keeps of a "tasks" object: only allowed keys whose value
   * in the parsed object is a list of strings, each with that list as
   * argv and "." as directory.
   */
  lemma LoadKeepsStringListTasks(data: Json, ms: seq<(string, Json)>)
    requires data.JObject? && Get(data.members, "tasks") == Some(JObject(ms))
    ensures LoadValue(data).Ok?
    ensures forall t :: t in LoadValue(data).value.tasks <==> HasKey(ms, Name(t)) && IsStringList(Get(ms, Name(t)).value)
    ensures forall t :: t in LoadValue(data).value.tasks ==>
      var g := Get(ms, Name(t));
      g.Some? && IsStringList(g.value) && LoadValue(data).value.tasks[t] == TaskSpec(Strings(g.value), ".")
  {
    forall t ensures t in CollectTasks(ms) <==> HasKey(ms, Name(t)) && IsStringList(Get(ms, Name(t)).value) {
      CollectKeys(ms, t);
    }
    forall t | t in CollectTasks(ms)
      ensures var g := Get(ms, Name(t));
        g.Some? && IsStringList(g.value) && CollectTasks(ms)[t] == TaskSpec(Strings(g.value), ".")
    {
      CollectArgv(ms, t);
    }
  }

  /**
   * The members `dump` writes for those tasks among `names`, in that
   * order: each key is the name of a task of `tasks`, and `dict.get` on
   * the result finds a task's argv exactly for the tasks among `names`.
   */
  function DumpTasks(tasks: map<TaskName, TaskSpec>, names: seq<TaskName>): (r: seq<(string, Json)>)
    ensures DumpedFrom(tasks, r)
    ensures forall t :: Get(r, Name(t)) == if t in tasks && t in names then Some(Encode(tasks[t].argv)) else None
    decreases |names|
  {
    if names == [] then []
    else
      var t := names[|names| - 1];
      var init := names[..|names| - 1];
      var xs := DumpTasks(tasks, init);
      assert names == init + [t];
      DumpStep(tasks, init, t, xs);
      if t in tasks then xs + [(Name(t), Encode(tasks[t].argv))] else xs
  }

  /** Every key of `ms` names a task of `tasks`. */
  predicate DumpedFrom(tasks: map<TaskName, TaskSpec>, ms: seq<(string, Json)>) {
    forall j :: 0 <= j < |ms| ==> TaskNamed(ms[j].0).Some? && TaskNamed(ms[j].0).value in tasks
  }

  /** One more step of `DumpTasks`. */
  lemma DumpStep(tasks: map<TaskName, TaskSpec>, init: seq<TaskName>, t: TaskName, xs: seq<(string, Json)>)
    requires DumpedFrom(tasks, xs)
    requires forall u :: Get(xs, Name(u)) == if u in tasks && u in init then Some(Encode(tasks[u].argv)) else None
    ensures var r := if t in tasks then xs + [(Name(t), Encode(tasks[t].argv))] else xs;
      && DumpedFrom(tasks, r)
      && forall u :: Get(r, Name(u)) == if u in tasks && u in init + [t] then Some(Encode(tasks[u].argv)) else None
  {
    if t in tasks {
      var m := (Name(t), Encode(tasks[t].argv));
      var r := xs + [m];
      TaskNamedName(t);
      forall j | 0 <= j < |r| ensures TaskNamed(r[j].0).Some? && TaskNamed(r[j].0).value in tasks {
        if j < |xs| {
          assert r[j] == xs[j];
        }
      }
      GetSnoc(xs, m);
      forall u ensures Get(r, Name(u)) == if u in tasks && u in init + [t] then Some(Encode(tasks[u].argv)) else None {
        TaskNamedName(u);
        assert u in init + [t] <==> u in init || u == t;
        if u == t {
          assert Get(r, Name(u)) == Some(m.1);
        } else {
          assert Name(u) != Name(t);
          assert Get(r, Name(u)) == Get(xs, Name(u));
        }
      }
    } else {
      forall u ensures u in tasks && u in init + [t] <==> u in tasks && u in init {
        assert u in init + [t] <==> u in init || u == t;
      }
    }
  }

  /** Every task name is listed in `AllTaskNames`. */
  lemma AllTaskNamesListed()
    ensures forall t: TaskName :: t in AllTaskNames
  {
    forall t: TaskName ensures t in AllTaskNames {
      AllTaskNamesComplete(t);
    }
  }

  /**
   * `OrchestraConfig.dump`: {"tasks": {name: argv, ...}} holding the argv
   * of every task of the configuration and nothing else; the directories
   * are not written.
   */
  function Dump(c: OrchestraConfig): (r: Json)
    ensures r.JObject? && |r.members| == 1 && r.members[0].0 == "tasks"
    ensures HasKey(r.members, "tasks") && Get(r.members, "tasks").value.JObject?
    ensures DumpedFrom(c.tasks, Get(r.members, "tasks").value.members)
    ensures forall t :: Get(Get(r.members, "tasks").value.members, Name(t))
                        == if t in c.tasks then Some(Encode(c.tasks[t].argv)) else None
  {
    AllTaskNamesListed();
    JObject([("tasks", JObject(DumpTasks(c.tasks, AllTaskNames)))])
  }

  /** Those entries of `tasks` whose names are among `names`. */
  function Restrict(tasks: map<TaskName, TaskSpec>, names: seq<TaskName>): map<TaskName, TaskSpec> {
    map t | t in tasks && t in names :: tasks[t]
  }

  lemma RestrictSnoc(tasks: map<TaskName, TaskSpec>, init: seq<TaskName>, t: TaskName)
    ensures Restrict(tasks, init + [t])
            == if t in tasks then Restrict(tasks, init)[t := tasks[t]] else Restrict(tasks, init)
  {
    assert forall u :: u in init + [t] <==> u in init || u == t;
  }

  lemma {:induction false} CollectDumpTasks(tasks: map<TaskName, TaskSpec>, names: seq<TaskName>)
    requires forall t :: t in tasks ==> tasks[t].cwd == "."
    ensures CollectTasks(DumpTasks(tasks, names)) == Restrict(tasks, names)
    decreases |names|
  {
    if names != [] {
      var init := names[..|names| - 1];
      var t := names[|names| - 1];
      CollectDumpTasks(tasks, init);
      var xs := DumpTasks(tasks, init);
      assert names == init + [t];
      RestrictSnoc(tasks, init, t);
      if t in tasks {
        var m := (Name(t), Encode(tasks[t].argv));
        assert DumpTasks(tasks, names) == xs + [m];
        assert (xs + [m])[..|xs|] == xs;
        TaskNamedName(t);
        assert CollectTasks(xs + [m]) == CollectTasks(xs)[t := Spec(tasks[t].argv)];
        assert Spec(tasks[t].argv) == tasks[t];
      } else {
        assert DumpTasks(tasks, names) == xs;
      }
    }
  }

  /** Loading what was dumped gives back every task whose directory is ".". */
  lemma LoadDump(c: OrchestraConfig)
    requires forall t :: t in c.tasks ==> c.tasks[t].cwd == "."
    ensures LoadValue(Dump(c)) == Ok(c)
  {
    CollectDumpTasks(c.tasks, AllTaskNames);
    var ms := DumpTasks(c.tasks, AllTaskNames);
    assert Get(Dump(c).members, "tasks") == Some(JObject(ms));
    forall t | t in c.tasks ensures t in AllTaskNames { AllTaskNamesComplete(t); }
    assert Restrict(c.tasks, AllTaskNames) == c.tasks;
  }

  // ---------------------------------------------------------------------
  // detect_default_config
  // ---------------------------------------------------------------------

  /**
   * The root of a repository as detection sees it: the names of the
   * entries that exist there, and the parsed content of those whose text
   * is valid JSON.
   */
  datatype RootDir = RootDir(present: set<string>, json: map<string, Json>)

  /** The `test` script `npm init` writes, which detection does not treat as a test suite. */
  const NpmPlaceholderTest := "echo \"Error: no test specified\" && exit 1"

  /** The package manager chosen from the lock files, pnpm first, npm last. */
  function PackageManager(present: set<string>): (pm: string)
    ensures pm == "pnpm" <==> "pnpm-lock.yaml" in present
    ensures pm == "yarn" <==> "pnpm-lock.yaml" !in present && "yarn.lock" in present
    ensures pm == "bun" <==> "pnpm-lock.yaml" !in present && "yarn.lock" !in present
                             && ("bun.lockb" in present || "bun.lock" in present)
    ensures pm == "npm" <==> "pnpm-lock.yaml" !in present && "yarn.lock" !in present
                             && "bun.lockb" !in present && "bun.lock" !in present
  {
    if "pnpm-lock.yaml" in present then "pnpm"
    else if "yarn.lock" in present then "yarn"
    else if "bun.lockb" in present || "bun.lock" in present then "bun"
    else "npm"
  }

  /** The install command for a manager. */
  function InstallArgv(pm: string, present: set<string>): seq<string> {
    if pm == "npm" && "package-lock.json" in present then ["npm", "ci"]
    else if pm == "yarn" then ["yarn", "install", "--frozen-lockfile"]
    else if pm == "pnpm" then ["pnpm", "install", "--frozen-lockfile"]
    else if pm == "bun" then ["bun", "install"]
    else [pm, "install"]
  }

  /** The "scripts" object of package.json, or none when it is not an object. */
  function ScriptsOf(pkg: seq<(string, Json)>): seq<(string, Json)> {
    var s := Get(pkg, "scripts");
    if s.Some? && s.value.JObject? then s.value.members else []
  }

  /** A `test` script that is present, truthy and not the placeholder. */
  predicate HasRealTest(scripts: seq<(string, Json)>) {
    var v := Get(scripts, "test");
    v.Some? && Truthy(v.value) && v.value != JString(NpmPlaceholderTest)
  }

  /** What detection sets for one task of a package.json repository. */
  function NodeTask(t: TaskName, pm: string, present: set<string>, scripts: seq<(string, Json)>): Option<TaskSpec> {
    match t
    case Install => Some(Spec(InstallArgv(pm, present)))
    case Test => if HasRealTest(scripts) then Some(Spec([pm, "test"])) else None
    case _ => if HasKey(scripts, Name(t)) then Some(Spec([pm, "run", Name(t)])) else None
  }

  /** What detection sets for one task of a Python repository. */
  function PythonTask(t: TaskName, present: set<string>): Option<TaskSpec> {
    match t
    case Install =>
      if "requirements.txt" in present
      then Some(Spec(["python", "-m", "pip", "install", "-r", "requirements.txt"])) else None
    case Test => Some(Spec(["python", "-m", "pytest"]))
    case Lint => Some(Spec(["python", "-m", "ruff", "check", "."]))
    case Format => Some(Spec(["python", "-m", "ruff", "format", "."]))
    case _ => None
  }

  /** Those tasks among `names` that detection sets for a package.json repository. */
  function NodeTasks(pm: string, present: set<string>, scripts: seq<(string, Json)>, names: set<TaskName>): (r: map<TaskName, TaskSpec>)
    ensures forall t :: t in r ==> r[t].cwd == "."
  {
    map t | t in names && NodeTask(t, pm, present, scripts).Some? :: NodeTask(t, pm, present, scripts).value
  }

  /** Those tasks among `names` that detection sets for a Python repository. */
  function PythonTasks(present: set<string>, names: set<TaskName>): (r: map<TaskName, TaskSpec>)
    ensures forall t :: t in r ==> r[t].cwd == "."
  {
    map t | t in names && PythonTask(t, present).Some? :: PythonTask(t, present).value
  }

  const AllTasks: set<TaskName> := {Install, Format, Lint, Typecheck, Test, Build}

  /** The package.json value detection works with: its parse, or {} when it does not parse. */
  function PackageJson(root: RootDir): Json {
    if "package.json" in root.json then root.json["package.json"] else JObject([])
  }

  /**
   * The configuration detection produces: package.json first, then a
   * Python project, else nothing. A package.json whose JSON is not an
   * object makes Python raise AttributeError.
   */
  function DefaultConfig(root: RootDir): (r: Result<OrchestraConfig>)
    ensures r.Ok? ==> forall t :: t in r.value.tasks ==> r.value.tasks[t].cwd == "."
  {
    if "package.json" in root.present then
      var pkg := PackageJson(root);
      if !pkg.JObject? then Err("AttributeError: package.json value has no attribute 'get'")
      else
        var pm := PackageManager(root.present);
        var scripts := ScriptsOf(pkg.members);
        Ok(OrchestraConfig(NodeTasks(pm, root.present, scripts, AllTasks)))
    else if "pyproject.toml" in root.present || "requirements.txt" in root.present then
      Ok(OrchestraConfig(PythonTasks(root.present, AllTasks)))
    else Ok(OrchestraConfig(map[]))
  }

  /** `detect_default_config`, filling its map of tasks step by step. */
  method DetectDefaultConfig(root: RootDir) returns (r: Result<OrchestraConfig>)
    ensures r == DefaultConfig(root)
  {
    var present := root.present;
    if "package.json" in present {
      var pm := "npm";
      if "pnpm-lock.yaml" in present {
        pm := "pnpm";
      } else if "yarn.lock" in present {
        pm := "yarn";
      } else if "bun.lockb" in present || "bun.lock" in present {
        pm := "bun";
      }
      var pkg := if "package.json" in root.json then root.json["package.json"] else JObject([]);
      if !pkg.JObject? {
        return Err("AttributeError: package.json value has no attribute 'get'");
      }
      var s := Get(pkg.members, "scripts");
      var scripts := if s.Some? && s.value.JObject? then s.value.members else [];
      var tasks := DetectNodeTasks(pm, present, scripts);
      return Ok(OrchestraConfig(tasks));
    }
    if "pyproject.toml" in present || "requirements.txt" in present {
      var tasks := DetectPythonTasks(present);
      return Ok(OrchestraConfig(tasks));
    }
    return Ok(OrchestraConfig(map[]));
  }

  /** The package.json branch of detection: install, then the standard scripts. */
  method DetectNodeTasks(pm: string, present: set<string>, scripts: seq<(string, Json)>)
    returns (tasks: map<TaskName, TaskSpec>)
    ensures tasks == NodeTasks(pm, present, scripts, AllTasks)
  {
    var install := DetectInstallSpec(pm, present);
    tasks := map[Install := install];
    NodeTasksStep(pm, present, scripts, {}, Install);
    ghost var done: set<TaskName> := {} + {Install};
    tasks := AddScriptTask(pm, present, scripts, done, Format, tasks);
    done := done + {Format};
    tasks := AddScriptTask(pm, present, scripts, done, Lint, tasks);
    done := done + {Lint};
    tasks := AddScriptTask(pm, present, scripts, done, Typecheck, tasks);
    done := done + {Typecheck};
    tasks := AddTestTask(pm, present, scripts, done, tasks);
    done := done + {Test};
    tasks := AddScriptTask(pm, present, scripts, done, Build, tasks);
    done := done + {Build};
    assert done == AllTasks;
  }

  /** `if "<name>" in scripts`: a task that runs the script of its own name. */
  method AddScriptTask(pm: string, present: set<string>, scripts: seq<(string, Json)>,
                       ghost done: set<TaskName>, t: TaskName, tasks: map<TaskName, TaskSpec>)
    returns (r: map<TaskName, TaskSpec>)
    requires t != Install && t != Test
    requires tasks == NodeTasks(pm, present, scripts, done)
    ensures r == NodeTasks(pm, present, scripts, done + {t})
  {
    r := tasks;
    if HasKey(scripts, Name(t)) {
      r := r[t := Spec([pm, "run", Name(t)])];
    }
    NodeTasksStep(pm, present, scripts, done, t);
  }

  /** The test task: only for a truthy `test` script that is not npm's placeholder. */
  method AddTestTask(pm: string, present: set<string>, scripts: seq<(string, Json)>,
                     ghost done: set<TaskName>, tasks: map<TaskName, TaskSpec>)
    returns (r: map<TaskName, TaskSpec>)
    requires tasks == NodeTasks(pm, present, scripts, done)
    ensures r == NodeTasks(pm, present, scripts, done + {Test})
  {
    r := tasks;
    var test := Get(scripts, "test");
    if test.Some? && Truthy(test.value) && test.value != JString(NpmPlaceholderTest) {
      r := r[Test := Spec([pm, "test"])];
    }
    NodeTasksStep(pm, present, scripts, done, Test);
  }

  /** The install step of the package.json branch. */
  method DetectInstallSpec(pm: string, present: set<string>) returns (spec: TaskSpec)
    ensures spec == Spec(InstallArgv(pm, present))
  {
    if pm == "npm" && "package-lock.json" in present {
      spec := Spec(["npm", "ci"]);
    } else if pm == "yarn" {
      spec := Spec(["yarn", "install", "--frozen-lockfile"]);
    } else if pm == "pnpm" {
      spec := Spec(["pnpm", "install", "--frozen-lockfile"]);
    } else if pm == "bun" {
      spec := Spec(["bun", "install"]);
    } else {
      spec := Spec([pm, "install"]);
    }
  }

  lemma NodeTasksStep(pm: string, present: set<string>, scripts: seq<(string, Json)>, done: set<TaskName>, t: TaskName)
    ensures var pick := NodeTask(t, pm, present, scripts);
            NodeTasks(pm, present, scripts, done + {t})
            == if pick.Some? then NodeTasks(pm, present, scripts, done)[t := pick.value]
               else NodeTasks(pm, present, scripts, done)
  {
  }

  /** The Python branch of detection. */
  method DetectPythonTasks(present: set<string>) returns (tasks: map<TaskName, TaskSpec>)
    ensures tasks == PythonTasks(present, AllTasks)
  {
    tasks := map[];
    if "requirements.txt" in present {
      tasks := tasks[Install := Spec(["python", "-m", "pip", "install", "-r", "requirements.txt"])];
    }
    tasks := tasks[Test := Spec(["python", "-m", "pytest"])];
    tasks := tasks[Lint := Spec(["python", "-m", "ruff", "check", "."])];
    tasks := tasks[Format := Spec(["python", "-m", "ruff", "format", "."])];
    forall t ensures t in tasks <==> t in PythonTasks(present, AllTasks) {
    }
  }

  /**
   * The install task of a package.json repository: `npm ci` exactly when
   * npm is chosen and package-lock.json exists, the frozen-lockfile
   * installs for yarn and pnpm, `bun install` for bun, else `npm install`.
   */
  lemma DetectInstall(root: RootDir)
    requires "package.json" in root.present && PackageJson(root).JObject?
    ensures DefaultConfig(root).Ok? && Install in DefaultConfig(root).value.tasks
    ensures var argv := DefaultConfig(root).value.tasks[Install].argv;
            var pm := PackageManager(root.present);
            && (argv == ["npm", "ci"] <==> pm == "npm" && "package-lock.json" in root.present)
            && (argv == ["yarn", "install", "--frozen-lockfile"] <==> pm == "yarn")
            && (argv == ["pnpm", "install", "--frozen-lockfile"] <==> pm == "pnpm")
            && (argv == ["bun", "install"] <==> pm == "bun")
            && (argv == ["npm", "install"] <==> pm == "npm" && "package-lock.json" !in root.present)
  {
  }

  /**
   * The script tasks of a package.json repository: format, lint,
   * typecheck and build exactly when package.json names that script, test
   * only for a present, non-empty script other than npm's placeholder.
   */
  lemma DetectScripts(root: RootDir, t: TaskName)
    requires "package.json" in root.present && PackageJson(root).JObject?
    ensures DefaultConfig(root).Ok?
    ensures var tasks := DefaultConfig(root).value.tasks;
            var scripts := ScriptsOf(PackageJson(root).members);
            var pm := PackageManager(root.present);
            && (t != Install && t != Test ==>
                  (t in tasks <==> HasKey(scripts, Name(t)))
                  && (t in tasks ==> tasks[t].argv == [pm, "run", Name(t)]))
            && (t == Test ==>
                  (t in tasks <==> (HasKey(scripts, "test") && Truthy(Get(scripts, "test").value)
                                    && Get(scripts, "test").value != JString(NpmPlaceholderTest)))
                  && (t in tasks ==> tasks[t].argv == [pm, "test"]))
  {
    AllTaskNamesComplete(t);
  }

  /**
   * Without package.json, a Python project gets test, lint and format,
   * and install only when requirements.txt exists.
   */
  lemma DetectPython(root: RootDir)
    requires "package.json" !in root.present
    requires "pyproject.toml" in root.present || "requirements.txt" in root.present
    ensures DefaultConfig(root).Ok?
    ensures var tasks := DefaultConfig(root).value.tasks;
            && tasks.Keys == {Test, Lint, Format} + (if "requirements.txt" in root.present then {Install} else {})
            && tasks[Test].argv == ["python", "-m", "pytest"]
  {
    var tasks := DefaultConfig(root).value.tasks;
    forall t ensures t in tasks <==> t in {Test, Lint, Format} + (if "requirements.txt" in root.present then {Install} else {}) {
    }
  }

  /** With neither package.json nor a Python project file, nothing is detected. */
  lemma DetectNothing(root: RootDir)
    requires "package.json" !in root.present
    requires "pyproject.toml" !in root.present && "requirements.txt" !in root.present
    ensures DefaultConfig(root) == Ok(OrchestraConfig(map[]))
  {
  }

  /** package.json wins over Python detection: no detected command is a python one. */
  lemma DetectNodeFirst(root: RootDir, t: TaskName)
    requires "package.json" in root.present && PackageJson(root).JObject?
    requires t in DefaultConfig(root).value.tasks
    ensures DefaultConfig(root).value.tasks[t].argv[0] != "python"
  {
    AllTaskNamesComplete(t);
  }

  /** Every detected configuration survives a dump and a reload unchanged. */
  lemma DetectedRoundTrip(root: RootDir)
    requires DefaultConfig(root).Ok?
    ensures LoadValue(Dump(DefaultConfig(root).value)) == DefaultConfig(root)
  {
    LoadDump(DefaultConfig(root).value);
  }

  // ---------------------------------------------------------------------
  // load_or_detect_config
  // ---------------------------------------------------------------------

  /** A configuration file as the loader finds it. */
  datatype ConfigFile = Missing | Unparsable | Parsed(value: Json)

  /** Reading and loading a configuration file: a missing file or one that is not JSON raises. */
  function LoadFile(f: ConfigFile): (r: Result<OrchestraConfig>)
    ensures r.Ok? ==> f.Parsed?
    ensures f.Parsed? ==> r == LoadValue(f.value)
  {
    match f
    case Missing => Err("FileNotFoundError")
    case Unparsable => Err("JSONDecodeError")
    case Parsed(v) => LoadValue(v)
  }

  /** The name of the per-repository configuration file. */
  const LocalConfigName := ".relialimo_orchestra.json"

  /** The per-repository configuration file, seen from the root: missing exactly when it does not exist. */
  function LocalConfig(root: RootDir): (f: ConfigFile)
    ensures f == Missing <==> LocalConfigName !in root.present
    ensures f.Parsed? <==> LocalConfigName in root.present && LocalConfigName in root.json
    ensures f.Parsed? ==> f.value == root.json[LocalConfigName]
  {
    if LocalConfigName !in root.present then Missing
    else if LocalConfigName in root.json then Parsed(root.json[LocalConfigName])
    else Unparsable
  }

  /**
   * `load_or_detect_config`: an explicit file that exists, else the
   * repository's own configuration file, else detection.
   */
  method LoadOrDetectConfig(explicit: Option<ConfigFile>, root: RootDir) returns (r: Result<OrchestraConfig>)
    ensures explicit.Some? && explicit.value != Missing ==> r == LoadFile(explicit.value)
    ensures (explicit.None? || explicit.value == Missing) && LocalConfig(root) != Missing
            ==> r == LoadFile(LocalConfig(root))
    ensures (explicit.None? || explicit.value == Missing) && LocalConfig(root) == Missing
            ==> r == DefaultConfig(root)
  {
    if explicit.Some? && explicit.value != Missing {
      r := ReadAndLoad(explicit.value);
      return;
    }
    var local := LocalConfig(root);
    if local != Missing {
      r := ReadAndLoad(local);
      return;
    }
    r := DetectDefaultConfig(root);
  }

  /** Reads the file (raising when it is not JSON) and runs the loader. */
  method ReadAndLoad(f: ConfigFile) returns (r: Result<OrchestraConfig>)
    requires f != Missing
    ensures r == LoadFile(f)
  {
    if f.Unparsable? {
      return Err("JSONDecodeError");
    }
    r := Load(f.value);
  }
}
