/**
 * The shared context of a run (repository root, task configuration,
 * session id and a mutable state dictionary) and the check that confines
 * every path a tool is given to the repository.
 */
module Context {
  import opened Results
  import opened Text
  import Config

  // ---------------------------------------------------------------------
  // Lexical POSIX paths
  // ---------------------------------------------------------------------

  /** An absolute POSIX path, as the list of its components below "/". */
  type Path = seq<string>

  /** The components pathlib keeps from `s`: empty ones and "." are dropped, ".." is kept. */
  function KeepParts(xs: seq<string>): (r: seq<string>)
    ensures forall k :: 0 <= k < |r| ==> r[k] != "" && r[k] != "."
    ensures forall k :: 0 <= k < |r| ==> r[k] in xs
    decreases |xs|
  {
    if xs == [] then []
    else (if xs[0] == "" || xs[0] == "." then [] else [xs[0]]) + KeepParts(xs[1..])
  }

  /** The components of a path string, split at "/". */
  function Parts(s: string): seq<string> {
    KeepParts(Split(s, '/'))
  }

  /** `base / rel` in pathlib: an absolute `rel` replaces `base`. */
  function JoinPath(base: Path, rel: string): Path {
    if StartsWith(rel, "/") then Parts(rel) else base + Parts(rel)
  }

  /** A resolved path has no empty, "." or ".." component. */
  predicate IsResolved(p: Path) {
    forall k :: 0 <= k < |p| ==> p[k] != "" && p[k] != "." && p[k] != ".."
  }

  /** One component of lexical resolution: ".." goes up (never above "/"). */
  function Step(acc: Path, part: string): Path {
    if part == ".." then (if acc == [] then [] else acc[..|acc| - 1])
    else if part == "" || part == "." then acc
    else acc + [part]
  }

  function ResolveFrom(acc: Path, rest: seq<string>): (r: Path)
    requires IsResolved(acc)
    ensures IsResolved(r)
    decreases |rest|
  {
    if rest == [] then acc else ResolveFrom(Step(acc, rest[0]), rest[1..])
  }

  /** `Path.resolve()` without symbolic links: "." and ".." folded away lexically. */
  function Resolve(p: Path): (r: Path)
    ensures IsResolved(r)
  {
    ResolveFrom([], p)
  }

  lemma {:induction false} ResolveFromResolved(acc: Path, rest: seq<string>)
    requires IsResolved(acc) && IsResolved(rest)
    ensures ResolveFrom(acc, rest) == acc + rest
    decreases |rest|
  {
    if rest != [] {
      ResolveFromResolved(acc + [rest[0]], rest[1..]);
      assert acc + [rest[0]] + rest[1..] == acc + rest;
    }
  }

  /** Resolving an already resolved path changes nothing. */
  lemma ResolveIdempotent(p: Path)
    requires IsResolved(p)
    ensures Resolve(p) == p
  {
    ResolveFromResolved([], p);
  }

  lemma {:induction false} ResolveFromAppend(acc: Path, a: seq<string>, b: seq<string>)
    requires IsResolved(acc)
    ensures ResolveFrom(acc, a + b) == ResolveFrom(ResolveFrom(acc, a), b)
    decreases |a|
  {
    if a != [] {
      assert (a + b)[1..] == a[1..] + b;
      ResolveFromAppend(Step(acc, a[0]), a[1..], b);
    } else {
      assert a + b == b;
    }
  }

  /** `a` is `b` or an ancestor of `b`. */
  predicate IsPrefix(a: Path, b: Path) {
    |a| <= |b| && b[..|a|] == a
  }

  /** `p.parents`: every proper ancestor of `p`. */
  function Parents(p: Path): set<Path> {
    set k | 0 <= k < |p| :: p[..k]
  }

  /** The source's test `root in p.parents or p == root` is prefix containment. */
  lemma ParentsOrSelf(root: Path, p: Path)
    ensures (root in Parents(p) || p == root) <==> IsPrefix(root, p)
  {
    if IsPrefix(root, p) && p != root {
      assert |root| < |p|;
      assert root == p[..|root|];
    }
  }

  /**
   * `rest` never climbs above the directory it starts in when `depth`
   * levels are available to climb: every ".." is matched by an earlier
   * component.
   */
  predicate StaysBelow(rest: seq<string>, depth: nat)
    decreases |rest|
  {
    rest == []
    || (if rest[0] == ".." then depth > 0 && StaysBelow(rest[1..], depth - 1)
        else if rest[0] == "" || rest[0] == "." then StaysBelow(rest[1..], depth)
        else StaysBelow(rest[1..], depth + 1))
  }

  lemma {:induction false} StaysBelowInside(root: Path, acc: Path, rest: seq<string>)
    requires IsResolved(acc) && IsPrefix(root, acc)
    requires StaysBelow(rest, |acc| - |root|)
    ensures IsPrefix(root, ResolveFrom(acc, rest))
    decreases |rest|
  {
    if rest != [] {
      var next := Step(acc, rest[0]);
      if rest[0] == ".." {
        assert next == acc[..|acc| - 1];
      }
      StaysBelowInside(root, next, rest[1..]);
    }
  }

  /**
   * `str(Path(s))`: the components of `s` joined by "/", after a leading
   * "/" when `s` is absolute, and "." when nothing is left.
   */
  function PathStr(s: string): (r: string)
    ensures r != []
    ensures StartsWith(s, "/") ==> r[0] == '/'
  {
    var parts := Parts(s);
    if StartsWith(s, "/") then "/" + Join(parts, "/")
    else if parts == [] then "."
    else Join(parts, "/")
  }

  /** `str(p)` of a relative path. */
  function RelStr(p: Path): string {
    if p == [] then "." else Join(p, "/")
  }

  /** `p.relative_to(base)`, None where pathlib raises ValueError. */
  function RelativeTo(p: Path, base: Path): (r: Option<Path>)
    ensures r.Some? <==> IsPrefix(base, p)
    ensures r.Some? ==> base + r.value == p
  {
    if IsPrefix(base, p) then
      assert p == p[..|base|] + p[|base|..];
      Some(p[|base|..])
    else None
  }

  // ---------------------------------------------------------------------
  // The run context
  // ---------------------------------------------------------------------

  /** The session id a context gets when none is given. */
  const DefaultSessionId := "relialimo_dev"

  /** A value the tools record in the context's state dictionary. */
  datatype StateValue =
    | TaskRecord(returncode: int, output: string)
    | BranchRecord(name: string)

  /** The "world state" of a run, passed to every tool. */
  class RepoContext {
    const repoDir: Path
    const config: Config.OrchestraConfig
    const sessionId: string
    /** Mutable runtime state, written by the tools. */
    var state: map<string, StateValue>

    /** A context with the default session id and empty state. */
    constructor (repoDir: Path, config: Config.OrchestraConfig)
      ensures this.repoDir == repoDir && this.config == config
      ensures sessionId == DefaultSessionId && state == map[]
    {
      this.repoDir := repoDir;
      this.config := config;
      this.sessionId := DefaultSessionId;
      this.state := map[];
    }

    /** A context for a named session, with empty state. */
    constructor WithSession(repoDir: Path, config: Config.OrchestraConfig, sessionId: string)
      ensures this.repoDir == repoDir && this.config == config
      ensures this.sessionId == sessionId && state == map[]
    {
      this.repoDir := repoDir;
      this.config := config;
      this.sessionId := sessionId;
      this.state := map[];
    }

    /** The resolved repository root. */
    function Root(): (root: Path)
      ensures IsResolved(root)
    {
      Resolve(repoDir)
    }

    /**
     * `abs_path`: resolves `rel` against the repository root and refuses
     * (ValueError) any result that is neither the root nor beneath it.
     */
    function AbsPath(rel: string): (r: Result<Path>)
      ensures r.Ok? <==> IsPrefix(Root(), Resolve(JoinPath(repoDir, rel)))
      ensures r.Ok? ==> r.value == Resolve(JoinPath(repoDir, rel))
      ensures r.Ok? ==> IsResolved(r.value) && IsPrefix(Root(), r.value)
      ensures r.Err? ==> r.error == "Path escapes repo: " + rel
    {
      var candidate := Resolve(JoinPath(repoDir, rel));
      var root := Resolve(repoDir);
      ParentsOrSelf(root, candidate);
      if root !in Parents(candidate) && candidate != root then Err("Path escapes repo: " + rel)
      else Ok(candidate)
    }

    /**
     * Over a resolved repository directory, every path at or below the
     * root is relative to the directory as given.
     */
    lemma RelativeToRoot(p: Path)
      requires IsResolved(repoDir) && IsPrefix(Root(), p)
      ensures RelativeTo(p, repoDir).Some?
    {
      ResolveIdempotent(repoDir);
    }

    /** "." names the root itself. */
    lemma AbsPathDot()
      ensures AbsPath(".") == Ok(Root())
    {
      var dot := ".";
      assert dot[0] != '/' && dot[1..] == "" && Split(dot[1..], '/') == [""];
      assert Split(dot, '/') == [[dot[0]] + ""];
      assert KeepParts(["."]) == [];
      assert JoinPath(repoDir, ".") == repoDir;
    }

    /**
     * A relative path without ".." is always accepted and lands at the
     * root followed by its components.
     */
    lemma AbsPathPlain(rel: string)
      requires !StartsWith(rel, "/") && ".." !in Parts(rel)
      ensures AbsPath(rel) == Ok(Root() + Parts(rel))
    {
      var parts := Parts(rel);
      ResolveFromAppend([], repoDir, parts);
      ResolveFromResolved(Root(), parts);
    }

    /**
     * A relative path whose ".." components never climb above the point
     * where they start is accepted, whatever it contains.
     */
    lemma AbsPathBalanced(rel: string)
      requires !StartsWith(rel, "/") && StaysBelow(Parts(rel), 0)
      ensures AbsPath(rel).Ok?
    {
      var parts := Parts(rel);
      ResolveFromAppend([], repoDir, parts);
      StaysBelowInside(Root(), Root(), parts);
    }
  }
}
