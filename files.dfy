/**
 * The file system the repository tools see, as an immutable tree: each
 * directory lists its regular files (name, decoded text, size in bytes)
 * and its named subdirectories, in the order the operating system lists
 * them.  The tree given to a tool is the one rooted at "/".
 */
module Files {
  import opened Results

  /** A regular file: its name, its text as `read_text` decodes it, and its size as `stat` reports it. */
  datatype File = File(name: string, text: string, size: nat)

  /** A directory: its files and its subdirectories, in listing order. */
  datatype Tree = Tree(files: seq<File>, dirs: seq<Dir>)

  /** A named subdirectory. */
  datatype Dir = Dir(name: string, tree: Tree)

  /** What a path names. */
  datatype Node = FileNode(file: File) | DirNode(tree: Tree)

  /** The first file of `fs` called `name`. */
  function FindFile(fs: seq<File>, name: string): (r: Option<File>)
    ensures r.Some? ==> r.value in fs && r.value.name == name
    ensures r.None? <==> forall i :: 0 <= i < |fs| ==> fs[i].name != name
    decreases |fs|
  {
    if fs == [] then None
    else if fs[0].name == name then Some(fs[0])
    else FindFile(fs[1..], name)
  }

  /** The first subdirectory of `ds` called `name`. */
  function FindDir(ds: seq<Dir>, name: string): (r: Option<Tree>)
    ensures r.Some? ==> exists i :: 0 <= i < |ds| && ds[i] == Dir(name, r.value)
    ensures r.None? <==> forall i :: 0 <= i < |ds| ==> ds[i].name != name
    decreases |ds|
  {
    if ds == [] then None
    else if ds[0].name == name then Some(ds[0].tree)
    else FindDir(ds[1..], name)
  }

  /**
   * The node at the resolved path `p` below `t`, or None when nothing
   * exists there (`Path.exists()` is `Find(..).Some?`, `is_file()` is
   * `FileNode?`).  A directory wins over a file of the same name.
   */
  function Find(t: Tree, p: seq<string>): (r: Option<Node>)
    ensures p == [] ==> r == Some(DirNode(t))
    decreases |p|
  {
    if p == [] then Some(DirNode(t))
    else match FindDir(t.dirs, p[0])
      case Some(sub) => Find(sub, p[1..])
      case None =>
        if |p| == 1 then
          match FindFile(t.files, p[0])
          case Some(f) => Some(FileNode(f))
          case None => None
        else None
  }

  /** The file `f` lies below `t` at the relative path `p` (its last component is `f`'s name). */
  predicate At(t: Tree, p: seq<string>, f: File)
    decreases |p|
  {
    |p| >= 1
    && if |p| == 1 then f in t.files && f.name == p[0]
       else exists i :: 0 <= i < |t.dirs| && t.dirs[i].name == p[0] && At(t.dirs[i].tree, p[1..], f)
  }
}
