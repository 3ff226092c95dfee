/**
 * The repository tools handed to the agents: the patch-safety guard and
 * `git apply`, the directory walk behind `list_files` and `search_repo`,
 * numbered file reading, and the tools that run tasks and create
 * branches, which write the context's state.  The file system is an immutable tree given to each
 * tool; process results come from the runner.
 */
module Tools {
  import opened Results
  import opened Text
  import Config
  import Context
  import Git
  import Files

  // ---------------------------------------------------------------------
  // Patch safety
  // ---------------------------------------------------------------------

  /** Markers of an absolute path in a diff header. */
  const BadMarkers := ["\n+++ /", "\n--- /", "diff --git /"]

  /** Python's `repr` of each marker, as it appears in the refusal. */
  const BadMarkerReprs := ["'\\n+++ /'", "'\\n--- /'", "'diff --git /'"]

  /** The position of the first marker, from position `i` on, that the patch contains. */
  function FirstMarker(patch: string, i: nat): (r: Option<nat>)
    ensures r.Some? ==> i <= r.value < |BadMarkers| && Contains(patch, BadMarkers[r.value])
    ensures r.Some? ==> forall j :: i <= j < r.value ==> !Contains(patch, BadMarkers[j])
    ensures r.None? <==> forall j :: i <= j < |BadMarkers| ==> !Contains(patch, BadMarkers[j])
    decreases |BadMarkers| - i
  {
    if i >= |BadMarkers| then None
    else if Contains(patch, BadMarkers[i]) then Some(i)
    else FirstMarker(patch, i + 1)
  }

  /** A unified-diff header line. */
  predicate IsHeader(line: string) {
    StartsWith(line, "+++ ") || StartsWith(line, "--- ") || StartsWith(line, "diff --git ")
  }

  /** A header line naming a parent directory. */
  predicate UnsafeHeader(line: string) {
    IsHeader(line) && (Contains(line, "../") || Contains(line, "..\\"))
  }

  /** A line of the patch is a header that climbs to a parent directory. */
  predicate HasUnsafeHeader(patch: string) {
    exists k :: 0 <= k < |SplitLines(patch)| && UnsafeHeader(SplitLines(patch)[k])
  }

  /** The verdict of `_patch_is_safe`: markers are checked first, then header lines. */
  function SafetyVerdict(patch: string): (r: (bool, string))
    ensures r.0 ==> r.1 == "OK"
    ensures !r.0 ==> StartsWith(r.1, "Unsafe patch: contains ")
  {
    var m := FirstMarker(patch, 0);
    if m.Some? then (false, "Unsafe patch: contains absolute path marker " + BadMarkerReprs[m.value])
    else if HasUnsafeHeader(patch) then (false, "Unsafe patch: contains parent traversal in diff header")
    else (true, "OK")
  }

  /**
   * `_patch_is_safe`: refuses a patch holding an absolute-path marker,
   * naming the first such marker, then one with a parent-traversal header.
   */
  method PatchIsSafe(patch: string) returns (ok: bool, msg: string)
    ensures (ok, msg) == SafetyVerdict(patch)
  {
    var i := 0;
    while i < |BadMarkers|
      invariant 0 <= i <= |BadMarkers|
      invariant FirstMarker(patch, i) == FirstMarker(patch, 0)
    {
      if Contains(patch, BadMarkers[i]) {
        return false, "Unsafe patch: contains absolute path marker " + BadMarkerReprs[i];
      }
      i := i + 1;
    }
    var lines := SplitLines(patch);
    var k := 0;
    while k < |lines|
      invariant 0 <= k <= |lines|
      invariant forall j :: 0 <= j < k ==> !UnsafeHeader(lines[j])
    {
      if UnsafeHeader(lines[k]) {
        return false, "Unsafe patch: contains parent traversal in diff header";
      }
      k := k + 1;
    }
    return true, "OK";
  }

  /** No marker anywhere in the patch, and no header line with "../" or "..\". */
  predicate Safe(patch: string) {
    (forall j :: 0 <= j < |BadMarkers| ==> !Contains(patch, BadMarkers[j]))
    && (forall k :: 0 <= k < |SplitLines(patch)| ==> !UnsafeHeader(SplitLines(patch)[k]))
  }

  /** A patch is accepted exactly when it is safe; an accepted patch says "OK". */
  lemma SafetyVerdictIff(patch: string)
    ensures SafetyVerdict(patch).0 <==> Safe(patch)
    ensures SafetyVerdict(patch).0 <==> SafetyVerdict(patch).1 == "OK"
  {
    var lines := SplitLines(patch);
    var m := FirstMarker(patch, 0);
    if m.Some? {
      assert Contains(patch, BadMarkers[m.value]);
      assert |SafetyVerdict(patch).1| > 2;
    } else if HasUnsafeHeader(patch) {
      var k :| 0 <= k < |lines| && UnsafeHeader(lines[k]);
      assert |SafetyVerdict(patch).1| > 2;
    }
  }

  /** A header that names an absolute path right after a line break is always refused. */
  lemma AbsoluteHeaderRefused(before: string, after: string)
    ensures !SafetyVerdict(before + "\n+++ /" + after).0
    ensures !SafetyVerdict(before + "\n--- /" + after).0
  {
    ContainsMiddle(before, "\n+++ /", after);
    ContainsMiddle(before, "\n--- /", after);
  }

  /** A string contains whatever is written in its middle. */
  lemma {:induction false} ContainsMiddle(a: string, m: string, b: string)
    ensures Contains(a + m + b, m)
    decreases |a|
  {
    if a == [] {
      assert (a + m + b)[..|m|] == m;
    } else {
      ContainsMiddle(a[1..], m, b);
      assert (a + m + b)[1..] == a[1..] + m + b;
    }
  }

  // ---------------------------------------------------------------------
  // Walking the repository
  // ---------------------------------------------------------------------

  /** Directories never entered: version control, dependencies, build output, caches. */
  const IgnoreDirs: set<string> := {
    ".git", ".next", "node_modules", "dist", "build", "out",
    ".venv", "venv", "__pycache__", ".pytest_cache", ".ruff_cache", ".mypy_cache"
  }

  /** A dotfile or dot-directory. */
  predicate Hidden(name: string) {
    StartsWith(name, ".")
  }

  /** A subdirectory the walk does not enter. */
  predicate Pruned(name: string, includeHidden: bool) {
    name in IgnoreDirs || (!includeHidden && Hidden(name))
  }

  /** A file the walk reports, with its path relative to the walk's root. */
  datatype Found = Found(path: Context.Path, file: Files.File)

  /** The subdirectories of `ds` left after pruning, in order. */
  function Kept(ds: seq<Files.Dir>, includeHidden: bool): (r: seq<Files.Dir>)
    ensures forall j :: 0 <= j < |r| ==> r[j] in ds && !Pruned(r[j].name, includeHidden)
    ensures forall d :: d in ds && !Pruned(d.name, includeHidden) ==> d in r
    decreases |ds|
  {
    if ds == [] then []
    else
      var last := ds[|ds| - 1];
      assert ds == ds[..|ds| - 1] + [last];
      Kept(ds[..|ds| - 1], includeHidden) + (if Pruned(last.name, includeHidden) then [] else [last])
  }

  /** The files of one directory `at` that are reported, in order. */
  function Shown(at: Context.Path, fs: seq<Files.File>, includeHidden: bool): (r: seq<Found>)
    ensures forall j :: 0 <= j < |r| ==> r[j].file in fs && r[j].path == at + [r[j].file.name]
    ensures forall j :: 0 <= j < |r| ==> includeHidden || !Hidden(r[j].file.name)
    decreases |fs|
  {
    if fs == [] then []
    else
      var last := fs[|fs| - 1];
      var before := Shown(at, fs[..|fs| - 1], includeHidden);
      if !includeHidden && Hidden(last.name) then before
      else before + [Found(at + [last.name], last)]
  }

  /**
   * The files `_walk_repo` collects from the directory `t`, found at `at`
   * and `depth` levels below the walk's root: nothing when it lies deeper
   * than `maxDepth`, else its shown files followed by the walks of the
   * subdirectories left after pruning.
   */
  function Walk(at: Context.Path, depth: nat, t: Files.Tree, maxDepth: int, includeHidden: bool): (r: seq<Found>)
    ensures depth > maxDepth ==> r == []
    ensures Under(at, r)
    decreases t, 1
  {
    if depth > maxDepth then []
    else Shown(at, t.files, includeHidden) + Below(at, depth, t, Kept(t.dirs, includeHidden), 0, maxDepth, includeHidden)
  }

  /** The walks of `subs[i..]`, subdirectories of `t`, in order. */
  function Below(at: Context.Path, depth: nat, t: Files.Tree, subs: seq<Files.Dir>, i: nat, maxDepth: int, includeHidden: bool): (r: seq<Found>)
    requires forall j :: 0 <= j < |subs| ==> subs[j] in t.dirs
    ensures Under(at, r)
    decreases t, 0, |subs| - i
  {
    if i >= |subs| then []
    else
      assert subs[i] in t.dirs;
      var w := Walk(at + [subs[i].name], depth + 1, subs[i].tree, maxDepth, includeHidden);
      UnderParent(at, subs[i].name, w);
      w + Below(at, depth, t, subs, i + 1, maxDepth, includeHidden)
  }

  /** Every path of `found` lies strictly below `at`. */
  predicate Under(at: Context.Path, found: seq<Found>) {
    forall j :: 0 <= j < |found| ==> |at| < |found[j].path| && found[j].path[..|at|] == at
  }

  /** What lies below a subdirectory of `at` lies below `at`. */
  lemma UnderParent(at: Context.Path, name: string, found: seq<Found>)
    requires Under(at + [name], found)
    ensures Under(at, found)
  {
    forall j | 0 <= j < |found| ensures found[j].path[..|at|] == at {
      assert found[j].path[..|at|] == found[j].path[..|at| + 1][..|at|];
    }
  }

  /** One step of `Below`: the walk of `subs[i]`, then the walks of the rest. */
  lemma BelowStep(at: Context.Path, depth: nat, t: Files.Tree, subs: seq<Files.Dir>, i: nat, maxDepth: int, includeHidden: bool, done: seq<Found>)
    requires forall j :: 0 <= j < |subs| ==> subs[j] in t.dirs
    requires i < |subs|
    ensures done + Below(at, depth, t, subs, i, maxDepth, includeHidden)
         == (done + Walk(at + [subs[i].name], depth + 1, subs[i].tree, maxDepth, includeHidden))
            + Below(at, depth, t, subs, i + 1, maxDepth, includeHidden)
  {
  }

  /** The pruning loop of `_walk_repo`: the subdirectories that are entered. */
  method PruneDirs(ds: seq<Files.Dir>, includeHidden: bool) returns (kept: seq<Files.Dir>)
    ensures kept == Kept(ds, includeHidden)
  {
    kept := [];
    var i := 0;
    while i < |ds|
      invariant 0 <= i <= |ds|
      invariant kept == Kept(ds[..i], includeHidden)
    {
      KeptStep(ds, i, includeHidden);
      if !Pruned(ds[i].name, includeHidden) {
        kept := kept + [ds[i]];
      }
      i := i + 1;
    }
    assert ds[..|ds|] == ds;
  }

  /** One more subdirectory for `Kept`: it is appended unless pruned. */
  lemma KeptStep(ds: seq<Files.Dir>, i: nat, includeHidden: bool)
    requires i < |ds|
    ensures Kept(ds[..i + 1], includeHidden)
            == Kept(ds[..i], includeHidden) + (if Pruned(ds[i].name, includeHidden) then [] else [ds[i]])
  {
    assert ds[..i + 1][..i] == ds[..i];
  }

  /** The file loop of `_walk_repo`: the files of one directory that are reported. */
  method ShowFiles(at: Context.Path, fs: seq<Files.File>, includeHidden: bool) returns (out: seq<Found>)
    ensures out == Shown(at, fs, includeHidden)
  {
    out := [];
    var i := 0;
    while i < |fs|
      invariant 0 <= i <= |fs|
      invariant out == Shown(at, fs[..i], includeHidden)
    {
      assert fs[..i + 1][..i] == fs[..i];
      var f := fs[i];
      if includeHidden || !Hidden(f.name) {
        out := out + [Found(at + [f.name], f)];
      }
      i := i + 1;
    }
    assert fs[..|fs|] == fs;
  }

  /**
   * `_walk_repo` on the directory `t`: prunes the ignored (and, unless
   * asked, hidden) subdirectories, collects the shown files, then descends.
   */
  method WalkDir(at: Context.Path, depth: nat, t: Files.Tree, maxDepth: int, includeHidden: bool)
    returns (out: seq<Found>)
    ensures out == Walk(at, depth, t, maxDepth, includeHidden)
    decreases t, 1
  {
    if depth > maxDepth {
      return [];
    }
    var kept := PruneDirs(t.dirs, includeHidden);
    assert forall j :: 0 <= j < |kept| ==> kept[j] in t.dirs;
    out := ShowFiles(at, t.files, includeHidden);
    var i := 0;
    while i < |kept|
      invariant 0 <= i <= |kept|
      invariant out + Below(at, depth, t, kept, i, maxDepth, includeHidden) == Walk(at, depth, t, maxDepth, includeHidden)
    {
      assert kept[i] in t.dirs;
      var sub := WalkDir(at + [kept[i].name], depth + 1, kept[i].tree, maxDepth, includeHidden);
      BelowStep(at, depth, t, kept, i, maxDepth, includeHidden, out);
      out := out + sub;
      i := i + 1;
    }
  }

  /** The relative path `rel` passes the walk's filters: no pruned directory, no hidden file unless asked. */
  predicate Visible(rel: Context.Path, includeHidden: bool) {
    |rel| >= 1
    && (forall k :: 0 <= k < |rel| - 1 ==> !Pruned(rel[k], includeHidden))
    && (includeHidden || !Hidden(rel[|rel| - 1]))
  }

  /**
   * `f` is a file of `t` at a visible path below `at`, in a directory at
   * most `maxDepth` levels below the walk's root.
   */
  predicate Reachable(at: Context.Path, depth: nat, t: Files.Tree, maxDepth: int, includeHidden: bool, f: Found) {
    |at| < |f.path| && f.path[..|at|] == at
    && Visible(f.path[|at|..], includeHidden)
    && depth + |f.path| - |at| - 1 <= maxDepth
    && Files.At(t, f.path[|at|..], f.file)
  }

  /** A file reachable in a kept subdirectory is reachable from its parent. */
  lemma ReachableLift(at: Context.Path, depth: nat, t: Files.Tree, d: Files.Dir, maxDepth: int, includeHidden: bool, f: Found)
    requires d in t.dirs && !Pruned(d.name, includeHidden)
    requires Reachable(at + [d.name], depth + 1, d.tree, maxDepth, includeHidden, f)
    ensures Reachable(at, depth, t, maxDepth, includeHidden, f)
  {
    var rel := f.path[|at|..];
    var inner := f.path[|at| + 1..];
    assert f.path[..|at| + 1] == at + [d.name];
    assert f.path[..|at|] == at;
    assert rel == [d.name] + inner;
    assert rel[1..] == inner;
    var i :| 0 <= i < |t.dirs| && t.dirs[i] == d;
    assert forall k :: 1 <= k < |rel| - 1 ==> rel[k] == inner[k - 1];
  }

  /** Every file the walk reports is reachable: no ignored or (unless asked) hidden component, within depth. */
  lemma {:induction false} WalkSound(at: Context.Path, depth: nat, t: Files.Tree, maxDepth: int, includeHidden: bool)
    ensures forall j :: 0 <= j < |Walk(at, depth, t, maxDepth, includeHidden)| ==>
      Reachable(at, depth, t, maxDepth, includeHidden, Walk(at, depth, t, maxDepth, includeHidden)[j])
    decreases t, 1
  {
    if depth <= maxDepth {
      var shown := Shown(at, t.files, includeHidden);
      var subs := Kept(t.dirs, includeHidden);
      BelowSound(at, depth, t, subs, 0, maxDepth, includeHidden);
      forall j | 0 <= j < |shown| ensures Reachable(at, depth, t, maxDepth, includeHidden, shown[j]) {
        assert shown[j].path[..|at|] == at;
        assert shown[j].path[|at|..] == [shown[j].file.name];
      }
    }
  }

  lemma {:induction false} BelowSound(at: Context.Path, depth: nat, t: Files.Tree, subs: seq<Files.Dir>, i: nat, maxDepth: int, includeHidden: bool)
    requires forall j :: 0 <= j < |subs| ==> subs[j] in t.dirs && !Pruned(subs[j].name, includeHidden)
    ensures forall j :: 0 <= j < |Below(at, depth, t, subs, i, maxDepth, includeHidden)| ==>
      Reachable(at, depth, t, maxDepth, includeHidden, Below(at, depth, t, subs, i, maxDepth, includeHidden)[j])
    decreases t, 0, |subs| - i
  {
    if i < |subs| {
      var d := subs[i];
      var w := Walk(at + [d.name], depth + 1, d.tree, maxDepth, includeHidden);
      WalkSound(at + [d.name], depth + 1, d.tree, maxDepth, includeHidden);
      BelowSound(at, depth, t, subs, i + 1, maxDepth, includeHidden);
      forall j | 0 <= j < |w| ensures Reachable(at, depth, t, maxDepth, includeHidden, w[j]) {
        ReachableLift(at, depth, t, d, maxDepth, includeHidden, w[j]);
      }
    }
  }

  /** A shown file of one directory is in that directory's list. */
  lemma {:induction false} ShownComplete(at: Context.Path, fs: seq<Files.File>, includeHidden: bool, f: Files.File)
    requires f in fs && (includeHidden || !Hidden(f.name))
    ensures Found(at + [f.name], f) in Shown(at, fs, includeHidden)
    decreases |fs|
  {
    var last := fs[|fs| - 1];
    assert fs == fs[..|fs| - 1] + [last];
    if f != last {
      ShownComplete(at, fs[..|fs| - 1], includeHidden, f);
    }
  }

  /** Whatever the walk of one listed subdirectory reports is in the walk of the list. */
  lemma {:induction false} BelowHas(at: Context.Path, depth: nat, t: Files.Tree, subs: seq<Files.Dir>, i: nat, m: nat, maxDepth: int, includeHidden: bool, f: Found)
    requires forall j :: 0 <= j < |subs| ==> subs[j] in t.dirs
    requires i <= m < |subs|
    requires f in Walk(at + [subs[m].name], depth + 1, subs[m].tree, maxDepth, includeHidden)
    ensures f in Below(at, depth, t, subs, i, maxDepth, includeHidden)
    decreases m - i
  {
    var here := Walk(at + [subs[i].name], depth + 1, subs[i].tree, maxDepth, includeHidden);
    var rest := Below(at, depth, t, subs, i + 1, maxDepth, includeHidden);
    assert Below(at, depth, t, subs, i, maxDepth, includeHidden) == here + rest;
    if i < m {
      BelowHas(at, depth, t, subs, i + 1, m, maxDepth, includeHidden, f);
      assert f in rest;
    } else {
      assert f in here;
    }
  }

  /** A reachable file one component below `at` is reported among the shown files. */
  lemma ReachableHere(at: Context.Path, depth: nat, t: Files.Tree, maxDepth: int, includeHidden: bool, f: Found)
    requires Reachable(at, depth, t, maxDepth, includeHidden, f) && |f.path| == |at| + 1
    ensures f in Shown(at, t.files, includeHidden)
  {
    var rel := f.path[|at|..];
    assert f.path == at + rel;
    assert rel == [f.file.name];
    ShownComplete(at, t.files, includeHidden, f.file);
  }

  /** A reachable file deeper down lies in a kept subdirectory where it is reachable too. */
  lemma ReachableBelow(at: Context.Path, depth: nat, t: Files.Tree, maxDepth: int, includeHidden: bool, f: Found)
    returns (m: nat)
    requires Reachable(at, depth, t, maxDepth, includeHidden, f) && |f.path| > |at| + 1
    ensures m < |Kept(t.dirs, includeHidden)|
    ensures var d := Kept(t.dirs, includeHidden)[m];
      d < t && Reachable(at + [d.name], depth + 1, d.tree, maxDepth, includeHidden, f)
  {
    var rel := f.path[|at|..];
    var subs := Kept(t.dirs, includeHidden);
    var i :| 0 <= i < |t.dirs| && t.dirs[i].name == rel[0] && Files.At(t.dirs[i].tree, rel[1..], f.file);
    var d := t.dirs[i];
    VisibleTail(rel, includeHidden);
    m :| 0 <= m < |subs| && subs[m] == d;
    SliceStep(f.path, at);
  }

  /** Below a visible path's first directory, the rest of the path is visible too. */
  lemma VisibleTail(rel: Context.Path, includeHidden: bool)
    requires Visible(rel, includeHidden) && |rel| >= 2
    ensures !Pruned(rel[0], includeHidden) && Visible(rel[1..], includeHidden)
  {
    assert forall k :: 0 <= k < |rel| - 2 ==> rel[1..][k] == rel[k + 1];
  }

  /** One component further down a path that extends `at`. */
  lemma SliceStep(p: seq<string>, at: seq<string>)
    requires |at| < |p| && p[..|at|] == at
    ensures p[..|at| + 1] == at + [p[|at|]]
    ensures p[|at| + 1..] == p[|at|..][1..]
  {
    assert p[..|at| + 1] == p[..|at|] + [p[|at|]];
  }

  /** Every reachable file is reported by the walk. */
  lemma {:induction false} WalkComplete(at: Context.Path, depth: nat, t: Files.Tree, maxDepth: int, includeHidden: bool, f: Found)
    requires Reachable(at, depth, t, maxDepth, includeHidden, f)
    ensures f in Walk(at, depth, t, maxDepth, includeHidden)
    decreases t
  {
    assert depth <= maxDepth;
    if |f.path| == |at| + 1 {
      ReachableHere(at, depth, t, maxDepth, includeHidden, f);
    } else {
      var subs := Kept(t.dirs, includeHidden);
      var m := ReachableBelow(at, depth, t, maxDepth, includeHidden, f);
      WalkComplete(at + [subs[m].name], depth + 1, subs[m].tree, maxDepth, includeHidden, f);
      BelowHas(at, depth, t, subs, 0, m, maxDepth, includeHidden, f);
    }
  }

  /** The walk reports exactly the reachable files. */
  lemma WalkExact(at: Context.Path, depth: nat, t: Files.Tree, maxDepth: int, includeHidden: bool, f: Found)
    ensures f in Walk(at, depth, t, maxDepth, includeHidden) <==> Reachable(at, depth, t, maxDepth, includeHidden, f)
  {
    WalkSound(at, depth, t, maxDepth, includeHidden);
    if Reachable(at, depth, t, maxDepth, includeHidden, f) {
      WalkComplete(at, depth, t, maxDepth, includeHidden, f);
    }
  }

  // ---------------------------------------------------------------------
  // list_files
  // ---------------------------------------------------------------------

  /** The most paths `list_files` reports before it cuts the list. */
  const ListLimit := 2000

  /** The line that ends a cut list. */
  const ListMarker := "... (truncated)"

  /** The message of the ValueError `relative_to` raises. */
  const NotRelative := "path is not relative to the repository directory"

  /**
   * The path strings of the walked files below `base`, relative to the
   * repository directory as given, or None when one of them is not below it.
   */
  function RelPaths(base: Context.Path, found: seq<Found>, repoDir: Context.Path): (r: Option<seq<string>>)
    ensures r.Some? <==> forall j :: 0 <= j < |found| ==> Context.IsPrefix(repoDir, base + found[j].path)
  {
    if forall j :: 0 <= j < |found| ==> Context.IsPrefix(repoDir, base + found[j].path) then
      Some(seq(|found|, j requires 0 <= j < |found| => Context.RelStr((base + found[j].path)[|repoDir|..])))
    else None
  }

  /** More than `ListLimit` lines become the first `ListLimit` and the marker. */
  function CutList(lines: seq<string>): (r: seq<string>)
    ensures |lines| <= ListLimit ==> r == lines
    ensures |lines| > ListLimit ==> |r| == ListLimit + 1 && r[..ListLimit] == lines[..ListLimit] && r[ListLimit] == ListMarker
  {
    if |lines| > ListLimit then lines[..ListLimit] + [ListMarker] else lines
  }

  /** The lines `list_files` reports for the walked files of a directory. */
  function ListLines(base: Context.Path, found: seq<Found>, repoDir: Context.Path): (r: Option<seq<string>>)
    ensures r.Some? <==> forall j :: 0 <= j < |found| ==> Context.IsPrefix(repoDir, base + found[j].path)
    ensures r.Some? ==> |r.value| <= ListLimit + 1
  {
    match RelPaths(base, found, repoDir)
    case None => None
    case Some(rels) => Some(CutList(Sort(rels)))
  }

  /**
   * `list_files`: "ERROR: path does not exist" for a missing path, the
   * normalised path for a file, else the sorted relative paths of the walk
   * of the directory, one per line, cut after `ListLimit` of them.  An
   * escaping path raises (Err).
   */
  method ListFiles(ctx: Context.RepoContext, fs: Files.Tree, path: string, maxDepth: int, includeHidden: bool)
    returns (r: Result<string>)
    ensures ctx.AbsPath(path).Err? ==> r == Err(ctx.AbsPath(path).error)
    ensures ctx.AbsPath(path).Ok? && Files.Find(fs, ctx.AbsPath(path).value).None? ==>
      r == Ok("ERROR: path does not exist: " + path)
    ensures (ctx.AbsPath(path).Ok? && Files.Find(fs, ctx.AbsPath(path).value).Some?
             && Files.Find(fs, ctx.AbsPath(path).value).value.FileNode?) ==>
      r == Ok(Context.PathStr(path))
    ensures (ctx.AbsPath(path).Ok? && Files.Find(fs, ctx.AbsPath(path).value).Some?
             && Files.Find(fs, ctx.AbsPath(path).value).value.DirNode?) ==>
      var base := ctx.AbsPath(path).value;
      var lines := ListLines(base, Walk([], 0, Files.Find(fs, base).value.tree, maxDepth, includeHidden), ctx.repoDir);
      r == if lines.Some? then Ok(Join(lines.value, "\n")) else Err(NotRelative)
  {
    var abs := ctx.AbsPath(path);
    if abs.Err? {
      return Err(abs.error);
    }
    var base := abs.value;
    var node := Files.Find(fs, base);
    if node.None? {
      return Ok("ERROR: path does not exist: " + path);
    }
    if node.value.FileNode? {
      return Ok(Context.PathStr(path));
    }
    var found := WalkDir([], 0, node.value.tree, maxDepth, includeHidden);
    var rels := RelPaths(base, found, ctx.repoDir);
    if rels.None? {
      return Err(NotRelative);
    }
    var sorted := Sort(rels.value);
    return Ok(Join(CutList(sorted), "\n"));
  }

  /**
   * The reported lines are sorted, at most `ListLimit` of them plus the
   * marker; an uncut list is a permutation of the relative paths, and a
   * cut one keeps the first `ListLimit` of them in sorted order.
   */
  lemma ListLinesShape(base: Context.Path, found: seq<Found>, repoDir: Context.Path)
    requires ListLines(base, found, repoDir).Some?
    ensures |RelPaths(base, found, repoDir).value| == |found|
    ensures |ListLines(base, found, repoDir).value| <= ListLimit + 1
    ensures |found| <= ListLimit ==>
      var lines := ListLines(base, found, repoDir).value;
      Sorted(lines) && multiset(lines) == multiset(RelPaths(base, found, repoDir).value)
    ensures |found| > ListLimit ==>
      var lines := ListLines(base, found, repoDir).value;
      |lines| == ListLimit + 1 && lines[ListLimit] == ListMarker
      && Sorted(lines[..ListLimit]) && lines[..ListLimit] == Sort(RelPaths(base, found, repoDir).value)[..ListLimit]
  {
    var rels := RelPaths(base, found, repoDir).value;
    var sorted := Sort(rels);
    assert |sorted| == |multiset(sorted)| == |multiset(rels)| == |rels|;
  }

  /**
   * When the directory listed lies below the repository directory as
   * given, the listing never fails and holds each walked file's path
   * relative to the repository directory.
   */
  lemma ListLinesPaths(base: Context.Path, found: seq<Found>, repoDir: Context.Path)
    requires Context.IsPrefix(repoDir, base)
    ensures ListLines(base, found, repoDir).Some?
    ensures forall j :: 0 <= j < |found| ==>
      Context.RelStr(base[|repoDir|..] + found[j].path) in RelPaths(base, found, repoDir).value
  {
    forall j | 0 <= j < |found|
      ensures Context.IsPrefix(repoDir, base + found[j].path)
      ensures (base + found[j].path)[|repoDir|..] == base[|repoDir|..] + found[j].path
    {
    }
    var rels := RelPaths(base, found, repoDir).value;
    forall j | 0 <= j < |found|
      ensures Context.RelStr(base[|repoDir|..] + found[j].path) in rels
    {
      assert rels[j] == Context.RelStr((base + found[j].path)[|repoDir|..]);
    }
  }

  // ---------------------------------------------------------------------
  // read_file
  // ---------------------------------------------------------------------

  /** Line `n` of a file as `read_file` shows it: the number right-aligned in six columns, " | ", the text. */
  function NumberedLine(n: nat, line: string): string {
    PadLeft(NatStr(n), 6) + " | " + line
  }

  /** Lines `first` to `last` of `text`, numbered. */
  function Numbered(text: seq<string>, first: int, last: int): seq<string>
    requires 1 <= first && last <= |text|
  {
    if last < first then []
    else seq(last - first + 1, k requires 0 <= k < last - first + 1 => NumberedLine(first + k, text[first + k - 1]))
  }

  /** The loop of `read_file` that numbers the requested lines. */
  method NumberLines(text: seq<string>, first: int, last: int) returns (lines: seq<string>)
    requires 1 <= first && last <= |text|
    ensures lines == Numbered(text, first, last)
  {
    lines := [];
    var i := first;
    while i <= last
      invariant first <= i && (i <= last + 1 || i == first)
      invariant |lines| == i - first
      invariant forall k :: 0 <= k < |lines| ==> lines[k] == NumberedLine(first + k, text[first + k - 1])
    {
      lines := lines + [NumberedLine(i, text[i - 1])];
      i := i + 1;
    }
    if first <= last {
      assert |lines| == |Numbered(text, first, last)|;
    }
  }

  /**
   * The number fills the first columns, right-aligned in at least six
   * (exactly six below a million), and the line's text follows " | ".
   */
  lemma NumberedLineText(n: nat, line: string)
    ensures var w := |PadLeft(NatStr(n), 6)|;
      NumberedLine(n, line)[..w] == PadLeft(NatStr(n), 6)
      && NumberedLine(n, line)[w..w + 3] == " | " && NumberedLine(n, line)[w + 3..] == line
    ensures n < 1000000 ==> |PadLeft(NatStr(n), 6)| == 6
  {
    if n < 1000000 {
      assert Pow10(6) == 1000000;
      NatStrLength(n, 6);
    }
  }

  /**
   * There are max(0, last - first + 1) numbered lines, numbered
   * consecutively from `first`; the k-th is the number right-aligned in
   * six columns, " | ", and the text of that line of the file.
   */
  lemma NumberedShape(text: seq<string>, first: int, last: int)
    requires 1 <= first && last <= |text|
    ensures |Numbered(text, first, last)| == if last < first then 0 else last - first + 1
    ensures forall k :: 0 <= k < |Numbered(text, first, last)| ==>
      Numbered(text, first, last)[k] == PadLeft(NatStr(first + k), 6) + " | " + text[first + k - 1]
  {
    forall k | 0 <= k < |Numbered(text, first, last)|
      ensures Numbered(text, first, last)[k] == PadLeft(NatStr(first + k), 6) + " | " + text[first + k - 1]
    {
      assert Numbered(text, first, last)[k] == NumberedLine(first + k, text[first + k - 1]);
    }
  }

  /** The first line of `read_file`'s answer. */
  function ReadHeader(path: string, first: int, last: int, total: nat): string {
    "FILE: " + path + " (lines " + IntStr(first) + "-" + IntStr(last) + " of " + IntStr(total) + ")"
  }

  /**
   * `read_file`: "ERROR: file not found" unless the path names a file;
   * else the header with the clamped range and the line count, then the
   * numbered lines from max(1, startLine) to min(count, endLine).
   */
  method ReadFile(ctx: Context.RepoContext, fs: Files.Tree, path: string, startLine: int, endLine: int)
    returns (r: Result<string>)
    ensures ctx.AbsPath(path).Err? ==> r == Err(ctx.AbsPath(path).error)
    ensures (ctx.AbsPath(path).Ok? && !(Files.Find(fs, ctx.AbsPath(path).value).Some?
             && Files.Find(fs, ctx.AbsPath(path).value).value.FileNode?)) ==>
      r == Ok("ERROR: file not found: " + path)
    ensures (ctx.AbsPath(path).Ok? && Files.Find(fs, ctx.AbsPath(path).value).Some?
             && Files.Find(fs, ctx.AbsPath(path).value).value.FileNode?) ==>
      var text := SplitLines(Files.Find(fs, ctx.AbsPath(path).value).value.file.text);
      var first := if startLine < 1 then 1 else startLine;
      var last := if endLine < |text| then endLine else |text|;
      r == Ok(ReadHeader(path, first, last, |text|) + "\n" + Join(Numbered(text, first, last), "\n"))
  {
    var abs := ctx.AbsPath(path);
    if abs.Err? {
      return Err(abs.error);
    }
    var node := Files.Find(fs, abs.value);
    if node.None? || !node.value.FileNode? {
      return Ok("ERROR: file not found: " + path);
    }
    var text := SplitLines(node.value.file.text);
    var first := if startLine < 1 then 1 else startLine;
    var last := if endLine < |text| then endLine else |text|;
    var lines := NumberLines(text, first, last);
    return Ok(ReadHeader(path, first, last, |text|) + "\n" + Join(lines, "\n"));
  }

  // ---------------------------------------------------------------------
  // search_repo
  // ---------------------------------------------------------------------

  /** Files larger than this many bytes are not scanned. */
  const SizeLimit := 400000

  /** How deep `search_repo` walks. */
  const SearchDepth := 25

  /** A matching line: the file's relative path, the 1-based line number and the line's text. */
  datatype Hit = Hit(rel: string, line: nat, text: string)

  /** How `search_repo` prints a hit: "rel:number: stripped line". */
  function Render(h: Hit): string {
    h.rel + ":" + NatStr(h.line) + ": " + Strip(h.text)
  }

  function Rendered(hits: seq<Hit>): (r: seq<string>)
    ensures |r| == |hits| && forall k :: 0 <= k < |r| ==> r[k] == Render(hits[k])
  {
    seq(|hits|, k requires 0 <= k < |hits| => Render(hits[k]))
  }

  /** A prefix of the hits stays a prefix after more are appended. */
  lemma PrefixAppend(a: seq<Hit>, b: seq<Hit>, c: seq<Hit>)
    requires |b| <= |c| && c[..|b|] == b
    ensures (a + c)[..|a + b|] == a + b
  {
    assert (a + c)[..|a + b|] == a + c[..|b|];
  }

  /** The hits among the first `n` lines of a file. */
  function LineHits(rel: string, lines: seq<string>, q: string, n: nat): seq<Hit>
    requires n <= |lines|
  {
    if n == 0 then []
    else LineHits(rel, lines, q, n - 1) + (if Contains(lines[n - 1], q) then [Hit(rel, n, lines[n - 1])] else [])
  }

  /** A walked file that is small enough and holds the query somewhere. */
  predicate Scanned(f: Found, q: string) {
    f.file.size <= SizeLimit && Contains(f.file.text, q)
  }

  /** The hits of one scanned file, or None when it is not below the repository directory as given. */
  function FileHits(f: Found, root: Context.Path, repoDir: Context.Path, q: string): Option<seq<Hit>> {
    var rel := Context.RelativeTo(root + f.path, repoDir);
    if rel.None? then None
    else
      var lines := SplitLines(f.file.text);
      Some(LineHits(Context.RelStr(rel.value), lines, q, |lines|))
  }

  /** The scan after one more file: skipped, stopped by the error, or its hits appended. */
  function ScanStep(prev: (seq<Hit>, bool), f: Found, root: Context.Path, repoDir: Context.Path, q: string): (r: (seq<Hit>, bool))
    ensures |prev.0| <= |r.0| && r.0[..|prev.0|] == prev.0
    ensures prev.1 ==> r == prev
  {
    if prev.1 || !Scanned(f, q) then prev
    else
      var hs := FileHits(f, root, repoDir, q);
      if hs.None? then (prev.0, true)
      else
        assert (prev.0 + hs.value)[..|prev.0|] == prev.0;
        (prev.0 + hs.value, false)
  }

  /**
   * The hits of the first `n` walked files, in order, and whether the scan
   * stopped at a scanned file outside the repository directory as given
   * (the ValueError of `relative_to`).
   */
  function Collect(files: seq<Found>, n: nat, root: Context.Path, repoDir: Context.Path, q: string): (seq<Hit>, bool)
    requires n <= |files|
  {
    if n == 0 then ([], false)
    else ScanStep(Collect(files, n - 1, root, repoDir, q), files[n - 1], root, repoDir, q)
  }

  /** The most matches `search_repo` reports: `maxMatches`, but never fewer than one. */
  function Cap(maxMatches: int): nat {
    if maxMatches < 1 then 1 else maxMatches
  }

  /**
   * The answer for the collected hits: the first `Cap` of them and the
   * marker once the cap is reached, else the error, else "NO MATCHES" or
   * all hits.
   */
  function SearchAnswer(hits: seq<Hit>, failed: bool, maxMatches: int): (r: Result<string>)
    ensures r.Err? <==> failed && |hits| < Cap(maxMatches)
    ensures r.Err? ==> r.error == NotRelative
    ensures |hits| >= Cap(maxMatches) ==>
      |Git.TruncationMarker| <= |r.value| && r.value[|r.value| - |Git.TruncationMarker|..] == Git.TruncationMarker
    ensures !failed && |hits| < Cap(maxMatches) ==>
      r == Ok(if hits == [] then "NO MATCHES" else Join(Rendered(hits), "\n"))
    ensures r == Ok("NO MATCHES") <==> !failed && hits == []
  {
    var cap := Cap(maxMatches);
    if |hits| >= cap then Ok(Join(Rendered(hits[..cap]), "\n") + Git.TruncationMarker)
    else if failed then Err(NotRelative)
    else if hits == [] then Ok("NO MATCHES")
    else
      RenderedNotNoMatches(hits);
      Ok(Join(Rendered(hits), "\n"))
  }

  /** Rendered hits never read "NO MATCHES": they begin with a path and a ':'. */
  lemma RenderedNotNoMatches(hits: seq<Hit>)
    requires hits != []
    ensures Join(Rendered(hits), "\n") != "NO MATCHES"
  {
    var parts := Rendered(hits);
    var n := |hits[0].rel|;
    RenderColon(hits[0]);
    JoinHead(parts, "\n");
    var j := Join(parts, "\n");
    assert j[n] == j[..|parts[0]|][n] == parts[0][n];
    ColonNotNoMatches(j, n);
  }

  /** A rendered hit has a ':' right after its path. */
  lemma RenderColon(h: Hit)
    ensures |h.rel| < |Render(h)| && Render(h)[|h.rel|] == ':'
  {
    ColonAfter(h.rel, NatStr(h.line), Strip(h.text));
  }

  lemma ColonAfter(a: string, b: string, c: string)
    ensures |a| < |a + ":" + b + ": " + c| && (a + ":" + b + ": " + c)[|a|] == ':'
  {
    assert (a + ":")[|a|] == ':';
  }

  /** `sep.join(parts)` begins with the first part. */
  lemma JoinHead(parts: seq<string>, sep: string)
    requires parts != []
    ensures |parts[0]| <= |Join(parts, sep)| && Join(parts, sep)[..|parts[0]|] == parts[0]
  {
    if |parts| > 1 {
      assert Join(parts, sep) == parts[0] + (sep + Join(parts[1..], sep));
    }
  }

  /** "NO MATCHES" holds no ':'. */
  lemma ColonNotNoMatches(s: string, i: nat)
    requires i < |s| && s[i] == ':'
    ensures s != "NO MATCHES"
  {
  }

  /** A scanned file has a line that holds the query. */
  predicate HasMatch(f: Found, q: string) {
    Scanned(f, q) && exists k :: 0 <= k < |SplitLines(f.file.text)| && Contains(SplitLines(f.file.text)[k], q)
  }

  /**
   * Over all walked files, the answer is "NO MATCHES" exactly when the
   * scan did not stop at the `relative_to` error and no scanned file has
   * a line holding the query.
   */
  lemma SearchNoMatches(files: seq<Found>, root: Context.Path, repoDir: Context.Path, q: string, maxMatches: int)
    ensures var all := Collect(files, |files|, root, repoDir, q);
      SearchAnswer(all.0, all.1, maxMatches) == Ok("NO MATCHES")
      <==> !all.1 && forall j :: 0 <= j < |files| ==> !HasMatch(files[j], q)
  {
    var all := Collect(files, |files|, root, repoDir, q);
    if !all.1 {
      if all.0 != [] {
        CollectSound(files, |files|, root, repoDir, q);
        assert FromFiles(all.0[0], files, |files|, root, repoDir, q);
        var j :| 0 <= j < |files| && HitOf(all.0[0], files[j], root, repoDir, q);
        assert HasMatch(files[j], q);
      } else {
        forall j | 0 <= j < |files| ensures !HasMatch(files[j], q) {
          if HasMatch(files[j], q) {
            var k :| 0 <= k < |SplitLines(files[j].file.text)| && Contains(SplitLines(files[j].file.text)[k], q);
            CollectComplete(files, |files|, root, repoDir, q, j, k);
            assert false;
          }
        }
      }
    }
  }

  /** The files `search_repo` walks: those below the resolved root, when it is a directory. */
  function SearchFiles(fs: Files.Tree, root: Context.Path): seq<Found> {
    var node := Files.Find(fs, root);
    if node.Some? && node.value.DirNode? then Walk([], 0, node.value.tree, SearchDepth, false) else []
  }

  /** One more file of the scan is one more `ScanStep`. */
  lemma CollectNext(files: seq<Found>, i: nat, root: Context.Path, repoDir: Context.Path, q: string)
    requires i < |files|
    ensures Collect(files, i + 1, root, repoDir, q) == ScanStep(Collect(files, i, root, repoDir, q), files[i], root, repoDir, q)
  {
  }

  /** A scan that stopped stays stopped. */
  lemma {:induction false} CollectStopped(files: seq<Found>, i: nat, m: nat, root: Context.Path, repoDir: Context.Path, q: string)
    requires i <= m <= |files| && Collect(files, i, root, repoDir, q).1
    ensures Collect(files, m, root, repoDir, q) == Collect(files, i, root, repoDir, q)
    decreases m - i
  {
    if i < m {
      CollectStopped(files, i, m - 1, root, repoDir, q);
    }
  }

  /** Later files only add hits after the earlier ones. */
  lemma {:induction false} CollectPrefix(files: seq<Found>, i: nat, m: nat, root: Context.Path, repoDir: Context.Path, q: string)
    requires i <= m <= |files|
    ensures var a := Collect(files, i, root, repoDir, q).0; var b := Collect(files, m, root, repoDir, q).0;
      |a| <= |b| && b[..|a|] == a
    decreases m - i
  {
    if i < m {
      CollectPrefix(files, i, m - 1, root, repoDir, q);
      var a := Collect(files, i, root, repoDir, q).0;
      var b := Collect(files, m - 1, root, repoDir, q).0;
      var c := Collect(files, m, root, repoDir, q).0;
      assert c[..|b|] == b;
      assert c[..|a|] == b[..|a|];
    }
  }

  /** Later lines only add hits after the earlier ones. */
  lemma {:induction false} LineHitsPrefix(rel: string, lines: seq<string>, q: string, i: nat, m: nat)
    requires i <= m <= |lines|
    ensures var a := LineHits(rel, lines, q, i); var b := LineHits(rel, lines, q, m);
      |a| <= |b| && b[..|a|] == a
    decreases m - i
  {
    if i < m {
      LineHitsPrefix(rel, lines, q, i, m - 1);
    }
  }

  /** Stopping early at the cap gives the same answer as collecting everything. */
  lemma CappedAnswer(all: seq<Hit>, failed: bool, seen: seq<Hit>, maxMatches: int)
    requires |seen| == Cap(maxMatches) && |seen| <= |all| && all[..|seen|] == seen
    ensures SearchAnswer(all, failed, maxMatches) == Ok(Join(Rendered(seen), "\n") + Git.TruncationMarker)
  {
  }

  /** Once the first `i + 1` files reach the cap, the answer is the capped one with the marker. */
  lemma FullAnswer(files: seq<Found>, i: nat, root: Context.Path, repoDir: Context.Path, q: string, seen: seq<Hit>, maxMatches: int)
    requires i < |files|
    requires var c := Collect(files, i + 1, root, repoDir, q).0;
      Cap(maxMatches) <= |c| && seen == c[..Cap(maxMatches)]
    ensures var all := Collect(files, |files|, root, repoDir, q);
      SearchAnswer(all.0, all.1, maxMatches) == Ok(Join(Rendered(seen), "\n") + Git.TruncationMarker)
  {
    CollectPrefix(files, i + 1, |files|, root, repoDir, q);
    var all := Collect(files, |files|, root, repoDir, q);
    var c := Collect(files, i + 1, root, repoDir, q).0;
    assert all.0[..|seen|] == c[..|seen|] == seen;
    CappedAnswer(all.0, all.1, seen, maxMatches);
  }

  /** Each hit of a file names a 1-based line number of that file whose line holds the query. */
  lemma {:induction false} LineHitsSound(rel: string, lines: seq<string>, q: string, n: nat)
    requires n <= |lines|
    ensures forall k :: 0 <= k < |LineHits(rel, lines, q, n)| ==>
      var h := LineHits(rel, lines, q, n)[k];
      h.rel == rel && 1 <= h.line <= n && h.text == lines[h.line - 1] && Contains(h.text, q)
  {
    if n > 0 {
      LineHitsSound(rel, lines, q, n - 1);
    }
  }

  /** Every line among the first `n` that holds the query is a hit. */
  lemma {:induction false} LineHitsComplete(rel: string, lines: seq<string>, q: string, n: nat, k: nat)
    requires k < n <= |lines| && Contains(lines[k], q)
    ensures Hit(rel, k + 1, lines[k]) in LineHits(rel, lines, q, n)
  {
    if k < n - 1 {
      LineHitsComplete(rel, lines, q, n - 1, k);
    }
  }

  /** Where a hit of the scan comes from: a scanned file, at a line holding the query. */
  predicate HitOf(h: Hit, f: Found, root: Context.Path, repoDir: Context.Path, q: string) {
    var rel := Context.RelativeTo(root + f.path, repoDir);
    var lines := SplitLines(f.file.text);
    Scanned(f, q) && rel.Some? && h.rel == Context.RelStr(rel.value)
    && 1 <= h.line <= |lines| && h.text == lines[h.line - 1] && Contains(h.text, q)
  }

  /** `h` is a hit of one of the first `n` files. */
  predicate FromFiles(h: Hit, files: seq<Found>, n: nat, root: Context.Path, repoDir: Context.Path, q: string)
    requires n <= |files|
  {
    exists j :: 0 <= j < n && HitOf(h, files[j], root, repoDir, q)
  }

  /** Every hit of the scan is a line holding the query in one of the files scanned so far. */
  lemma {:induction false} CollectSound(files: seq<Found>, n: nat, root: Context.Path, repoDir: Context.Path, q: string)
    requires n <= |files|
    ensures forall k :: 0 <= k < |Collect(files, n, root, repoDir, q).0| ==>
      FromFiles(Collect(files, n, root, repoDir, q).0[k], files, n, root, repoDir, q)
  {
    if n > 0 {
      CollectSound(files, n - 1, root, repoDir, q);
      var prev := Collect(files, n - 1, root, repoDir, q);
      var f := files[n - 1];
      if !prev.1 && Scanned(f, q) && FileHits(f, root, repoDir, q).Some? {
        FileHitsSound(f, root, repoDir, q);
        HitsExtend(prev.0, FileHits(f, root, repoDir, q).value, files, n, root, repoDir, q);
      } else {
        HitsExtend(prev.0, [], files, n, root, repoDir, q);
        assert prev.0 + [] == prev.0;
      }
    }
  }

  /** The hits of one scanned file come from that file. */
  lemma FileHitsSound(f: Found, root: Context.Path, repoDir: Context.Path, q: string)
    requires Scanned(f, q) && FileHits(f, root, repoDir, q).Some?
    ensures forall k :: 0 <= k < |FileHits(f, root, repoDir, q).value| ==>
      HitOf(FileHits(f, root, repoDir, q).value[k], f, root, repoDir, q)
  {
    var rel := Context.RelativeTo(root + f.path, repoDir).value;
    var lines := SplitLines(f.file.text);
    LineHitsSound(Context.RelStr(rel), lines, q, |lines|);
  }

  /** Hits from the first `n - 1` files followed by hits from file `n - 1` come from the first `n`. */
  lemma HitsExtend(before: seq<Hit>, added: seq<Hit>, files: seq<Found>, n: nat, root: Context.Path, repoDir: Context.Path, q: string)
    requires 0 < n <= |files|
    requires forall k :: 0 <= k < |before| ==> FromFiles(before[k], files, n - 1, root, repoDir, q)
    requires forall k :: 0 <= k < |added| ==> HitOf(added[k], files[n - 1], root, repoDir, q)
    ensures forall k :: 0 <= k < |before + added| ==> FromFiles((before + added)[k], files, n, root, repoDir, q)
  {
    forall k | 0 <= k < |before + added|
      ensures FromFiles((before + added)[k], files, n, root, repoDir, q)
    {
      if k < |before| {
        assert (before + added)[k] == before[k];
        assert FromFiles(before[k], files, n - 1, root, repoDir, q);
        var j :| 0 <= j < n - 1 && HitOf(before[k], files[j], root, repoDir, q);
      } else {
        assert (before + added)[k] == added[k - |before|];
        assert HitOf(added[k - |before|], files[n - 1], root, repoDir, q);
      }
    }
  }

  /**
   * Unless the scan stopped at an error, every line holding the query in
   * a scanned file is a hit.
   */
  lemma {:induction false} CollectComplete(files: seq<Found>, n: nat, root: Context.Path, repoDir: Context.Path, q: string, j: nat, k: nat)
    requires j < n <= |files| && !Collect(files, n, root, repoDir, q).1
    requires Scanned(files[j], q) && k < |SplitLines(files[j].file.text)| && Contains(SplitLines(files[j].file.text)[k], q)
    ensures Context.RelativeTo(root + files[j].path, repoDir).Some?
    ensures Hit(Context.RelStr(Context.RelativeTo(root + files[j].path, repoDir).value), k + 1, SplitLines(files[j].file.text)[k])
            in Collect(files, n, root, repoDir, q).0
    decreases n
  {
    var prev := Collect(files, n - 1, root, repoDir, q);
    assert !prev.1;
    if j < n - 1 {
      CollectComplete(files, n - 1, root, repoDir, q, j, k);
      CollectPrefix(files, n - 1, n, root, repoDir, q);
      var h := Hit(Context.RelStr(Context.RelativeTo(root + files[j].path, repoDir).value), k + 1, SplitLines(files[j].file.text)[k]);
      var m :| 0 <= m < |prev.0| && prev.0[m] == h;
      assert Collect(files, n, root, repoDir, q).0[m] == h;
    } else {
      var f := files[n - 1];
      var lines := SplitLines(f.file.text);
      var rel := Context.RelativeTo(root + f.path, repoDir).value;
      LineHitsComplete(Context.RelStr(rel), lines, q, |lines|, k);
    }
  }

  /**
   * The line loop of `search_repo` over one file: appends its hits to
   * `matches` and reports whether the cap was reached.
   */
  method ScanLines(rel: string, lines: seq<string>, query: string, maxMatches: int, matches: seq<Hit>)
    returns (out: seq<Hit>, full: bool)
    requires |matches| < Cap(maxMatches)
    ensures var all := matches + LineHits(rel, lines, query, |lines|);
      if full then Cap(maxMatches) <= |all| && out == all[..Cap(maxMatches)]
      else |all| < Cap(maxMatches) && out == all
  {
    out := matches;
    var idx := 0;
    while idx < |lines|
      invariant 0 <= idx <= |lines|
      invariant out == matches + LineHits(rel, lines, query, idx)
      invariant |out| < Cap(maxMatches)
    {
      if Contains(lines[idx], query) {
        out := out + [Hit(rel, idx + 1, lines[idx])];
        if |out| >= maxMatches {
          LineHitsPrefix(rel, lines, query, idx + 1, |lines|);
          PrefixAppend(matches, LineHits(rel, lines, query, idx + 1), LineHits(rel, lines, query, |lines|));
          return out, true;
        }
      }
      idx := idx + 1;
    }
    return out, false;
  }

  /**
   * The body of `search_repo`'s file loop: skips a large file or one
   * without the query, fails on a file outside the repository directory
   * as given, else scans its lines.
   */
  method ScanFile(f: Found, root: Context.Path, repoDir: Context.Path, query: string, maxMatches: int, matches: seq<Hit>)
    returns (out: seq<Hit>, full: bool, failed: bool)
    requires |matches| < Cap(maxMatches)
    ensures var next := ScanStep((matches, false), f, root, repoDir, query);
      if full then !failed && !next.1 && Cap(maxMatches) <= |next.0| && out == next.0[..Cap(maxMatches)]
      else next == (out, failed) && |out| < Cap(maxMatches)
  {
    if f.file.size > SizeLimit || !Contains(f.file.text, query) {
      return matches, false, false;
    }
    var rel := Context.RelativeTo(root + f.path, repoDir);
    if rel.None? {
      return matches, false, true;
    }
    var lines := SplitLines(f.file.text);
    out, full := ScanLines(Context.RelStr(rel.value), lines, query, maxMatches, matches);
    failed := false;
  }

  /**
   * One round of `search_repo`'s file loop, over file `i`: either the
   * answer is settled (the cap is reached, or the file is outside the
   * repository directory as given), or the scan goes on with `next`.
   */
  method ScanNext(files: seq<Found>, i: nat, root: Context.Path, repoDir: Context.Path, query: string, maxMatches: int, matches: seq<Hit>)
    returns (next: seq<Hit>, done: bool, answer: Result<string>)
    requires i < |files|
    requires Collect(files, i, root, repoDir, query) == (matches, false) && |matches| < Cap(maxMatches)
    ensures var all := Collect(files, |files|, root, repoDir, query);
      done ==> answer == SearchAnswer(all.0, all.1, maxMatches)
    ensures !done ==> Collect(files, i + 1, root, repoDir, query) == (next, false) && |next| < Cap(maxMatches)
  {
    var out, full, failed := ScanFile(files[i], root, repoDir, query, maxMatches, matches);
    CollectNext(files, i, root, repoDir, query);
    next, done, answer := out, false, Ok("");
    if full {
      FullAnswer(files, i, root, repoDir, query, out, maxMatches);
      done, answer := true, Ok(Join(Rendered(out), "\n") + Git.TruncationMarker);
    } else if failed {
      CollectStopped(files, i + 1, |files|, root, repoDir, query);
      done, answer := true, Err(NotRelative);
    }
  }

  /**
   * The file loop of `search_repo` over the walked `files`: scans them in
   * order and stops at the cap or at the first scanned file outside the
   * repository directory as given.
   */
  method ScanAll(files: seq<Found>, root: Context.Path, repoDir: Context.Path, query: string, maxMatches: int)
    returns (r: Result<string>)
    ensures var c := Collect(files, |files|, root, repoDir, query);
      r == SearchAnswer(c.0, c.1, maxMatches)
  {
    var matches: seq<Hit> := [];
    var i := 0;
    while i < |files|
      invariant 0 <= i <= |files|
      invariant Collect(files, i, root, repoDir, query) == (matches, false)
      invariant |matches| < Cap(maxMatches)
    {
      var next, done, answer := ScanNext(files, i, root, repoDir, query, maxMatches, matches);
      if done {
        return answer;
      }
      matches := next;
      i := i + 1;
    }
    return Ok(if matches == [] then "NO MATCHES" else Join(Rendered(matches), "\n"));
  }

  /**
   * `search_repo`: walks the resolved root (hidden entries excluded, 25
   * levels), scans each small file holding the query line by line, and
   * stops once `Cap(maxMatches)` matches are collected.
   */
  method SearchRepo(ctx: Context.RepoContext, fs: Files.Tree, query: string, maxMatches: int)
    returns (r: Result<string>)
    ensures var files := SearchFiles(fs, ctx.Root());
      var c := Collect(files, |files|, ctx.Root(), ctx.repoDir, query);
      r == SearchAnswer(c.0, c.1, maxMatches)
  {
    var root := ctx.Root();
    var node := Files.Find(fs, root);
    var files: seq<Found> := [];
    if node.Some? && node.value.DirNode? {
      files := WalkDir([], 0, node.value.tree, SearchDepth, false);
    }
    r := ScanAll(files, root, ctx.repoDir, query, maxMatches);
  }

  /** The command `apply_patch` runs on the temporary patch file. */
  function ApplyCommand(patchPath: string, repoDir: Context.Path): Git.Command {
    Git.Command(["git", "apply", "--whitespace=nowarn", patchPath], repoDir, None)
  }

  /**
   * `apply_patch`: refuses an unsafe patch without running anything;
   * otherwise runs `git apply` on the temporary file `patchPath` holding
   * the patch and reports git's standard error, else its standard output,
   * when it fails.
   */
  method ApplyPatch(ctx: Context.RepoContext, patch: string, patchPath: string, run: Git.Runner)
    returns (r: Git.Outcome)
    ensures r.ran == [] <==> !SafetyVerdict(patch).0
    ensures !SafetyVerdict(patch).0 ==> r.text == "ERROR: " + SafetyVerdict(patch).1
    ensures SafetyVerdict(patch).0 ==> r.ran == [ApplyCommand(patchPath, ctx.repoDir)]
    ensures SafetyVerdict(patch).0 ==> var p := run(ApplyCommand(patchPath, ctx.repoDir));
      r.text == if p.returncode == 0 then "OK: patch applied"
                else "ERROR applying patch:\n" + (if p.stderr != [] then p.stderr else p.stdout)
  {
    var ok, msg := PatchIsSafe(patch);
    if !ok {
      return Git.Outcome("ERROR: " + msg, []);
    }
    var cmd := ApplyCommand(patchPath, ctx.repoDir);
    var p := run(cmd);
    if p.returncode != 0 {
      return Git.Outcome("ERROR applying patch:\n" + (if p.stderr != [] then p.stderr else p.stdout), [cmd]);
    }
    return Git.Outcome("OK: patch applied", [cmd]);
  }

  // ---------------------------------------------------------------------
  // Tools that record into the context's state
  // ---------------------------------------------------------------------

  /** How much of a task's output `run_task` keeps and returns. */
  const TaskTailLimit := 4000

  /** The state key under which `run_task` records a task. */
  function TaskKey(task: Config.TaskName): string {
    "task:" + Config.Name(task)
  }

  /** The command `run_task` runs for a configured task. */
  function RunTaskCommand(repoDir: Context.Path, spec: Config.TaskSpec, timeoutSec: int): Git.Command {
    Git.Command(spec.argv, Context.JoinPath(repoDir, spec.cwd), Some(timeoutSec))
  }

  /** The reply of `run_task`: "OK" or "FAIL(code)", the command line, then the output's tail. */
  function TaskReport(code: int, argv: seq<string>, out: string): (r: string)
    ensures code == 0 ==> StartsWith(r, "OK: ")
    ensures code != 0 ==> StartsWith(r, "FAIL(")
  {
    Verdict(code) + ": " + Join(argv, " ") + "\n" + Tail(out, TaskTailLimit)
  }

  /** "OK" for exit code 0, else "FAIL(<code>)". */
  function Verdict(code: int): (v: string)
    ensures code == 0 ==> v == "OK"
    ensures code != 0 ==> v != [] && v[0] == 'F' && StartsWith(v, "FAIL(")
  {
    if code == 0 then "OK" else "FAIL(" + IntStr(code) + ")"
  }

  /** The reply of `run_task` says "OK:" exactly when its process exited with 0. */
  lemma TaskReportOk(code: int, argv: seq<string>, out: string)
    ensures StartsWith(TaskReport(code, argv, out), "OK:") <==> code == 0
  {
    var rest := Join(argv, " ") + "\n" + Tail(out, TaskTailLimit);
    assert TaskReport(code, argv, out) == Verdict(code) + (": " + rest);
    ReplyHead(Verdict(code), rest);
  }

  /** A reply headed "OK" starts with "OK:"; one headed with an 'F' does not. */
  lemma ReplyHead(head: string, rest: string)
    requires head == "OK" || (head != [] && head[0] == 'F')
    ensures StartsWith(head + (": " + rest), "OK:") <==> head == "OK"
  {
    var r := head + (": " + rest);
    if head == "OK" {
      assert r[..3] == "OK:";
    } else {
      assert r[0] == 'F';
    }
  }

  /** The reply of `run_task` ends with the last `TaskTailLimit` characters of the output. */
  lemma TaskReportTail(code: int, argv: seq<string>, out: string)
    ensures var r := TaskReport(code, argv, out); var tail := Tail(out, TaskTailLimit);
      |tail| <= |r| && r[|r| - |tail|..] == tail && |tail| <= TaskTailLimit
  {
    var head := Verdict(code) + ": " + Join(argv, " ") + "\n";
    var tail := Tail(out, TaskTailLimit);
    assert TaskReport(code, argv, out) == head + tail;
  }

  /**
   * `run_task`: an unconfigured task is skipped without running anything;
   * a configured one runs with the given timeout, its return code and
   * output tail are recorded under "task:<name>", and the report is returned.
   */
  method RunTask(ctx: Context.RepoContext, task: Config.TaskName, timeoutSec: int, run: Git.Runner)
    returns (r: Git.Outcome)
    modifies ctx
    ensures task !in ctx.config.tasks ==>
      r == Git.Outcome("SKIP: task not configured: " + Config.Name(task), []) && ctx.state == old(ctx.state)
    ensures task in ctx.config.tasks ==>
      var spec := ctx.config.tasks[task];
      var cmd := RunTaskCommand(ctx.repoDir, spec, timeoutSec);
      var res := Git.Exec(cmd, run);
      r == Git.Outcome(TaskReport(res.code, spec.argv, res.out), [cmd])
      && ctx.state == old(ctx.state)[TaskKey(task) := Context.TaskRecord(res.code, Tail(res.out, TaskTailLimit))]
  {
    if task !in ctx.config.tasks {
      return Git.Outcome("SKIP: task not configured: " + Config.Name(task), []);
    }
    var spec := ctx.config.tasks[task];
    var cmd := RunTaskCommand(ctx.repoDir, spec, timeoutSec);
    var res := Git.Exec(cmd, run);
    ctx.state := ctx.state[TaskKey(task) := Context.TaskRecord(res.code, Tail(res.out, TaskTailLimit))];
    return Git.Outcome(TaskReport(res.code, spec.argv, res.out), [cmd]);
  }

  /** Different tasks are recorded under different keys. */
  lemma TaskKeyInjective(a: Config.TaskName, b: Config.TaskName)
    ensures TaskKey(a) == TaskKey(b) <==> a == b
  {
    if a != b {
      Config.TaskNamedName(a);
      Config.TaskNamedName(b);
      assert TaskKey(a)[5..] == Config.Name(a);
      assert TaskKey(b)[5..] == Config.Name(b);
    }
  }

  /**
   * `git_create_branch`: the branch check and `git checkout -b` in the
   * repository; the new branch is recorded under "branch" only when git
   * switched to it.
   */
  method CreateBranchTool(ctx: Context.RepoContext, name: string, run: Git.Runner) returns (r: Git.Outcome)
    modifies ctx
    ensures r == Git.CreateBranch(name, ctx.repoDir, run)
    ensures ctx.state == if Git.BranchCreated(name, ctx.repoDir, run)
                         then old(ctx.state)["branch" := Context.BranchRecord(name)]
                         else old(ctx.state)
  {
    r := Git.CreateBranch(name, ctx.repoDir, run);
    if Git.BranchCreated(name, ctx.repoDir, run) {
      ctx.state := ctx.state["branch" := Context.BranchRecord(name)];
    }
  }
}
