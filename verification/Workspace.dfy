/**
 * The project workspace as the executor, the rollback and the dry run see it: how a raw relative
 * path is resolved, and the files and directories it resolves to.
 */
module Workspace {
  import opened Text

  /** An absolute path as its list of components; [] is "/". */
  type Path = seq<string>

  /** The bytes of a file: UTF-8 text, or anything else. Digests are compared as the bytes themselves. */
  datatype Content = Utf8(text: string) | Binary(bytes: seq<int>)

  /** Regular files and directories under their resolved (real) path. */
  datatype Disk = Disk(files: map<Path, Content>, dirs: set<Path>) {
    predicate Exists(p: Path) {
      p in files || p in dirs
    }

    /** No path is a file and a directory at once. */
    ghost predicate Sane() {
      files.Keys !! dirs
    }
  }

  function Dir(p: Path): Path {
    if p == [] then [] else p[..|p| - 1]
  }

  /** os.path.normpath(os.path.join(base, parts)), lexically. */
  function Resolve(base: Path, parts: seq<string>): Path
    decreases |parts|
  {
    if parts == [] then base
    else
      Resolve(
        if parts[0] == "" || parts[0] == "." then base
        else if parts[0] == ".." then Dir(base)
        else base + [parts[0]],
        parts[1..])
  }

  /** One more part moves on from where the others led: nowhere, one up, or one down. */
  lemma {:induction false} ResolveNext(base: Path, parts: seq<string>, part: string)
    ensures Resolve(base, []) == base
    ensures var p := Resolve(base, parts);
      Resolve(base, parts + [part]) ==
        if part == "" || part == "." then p
        else if part != ".." then p + [part]
        else if p == [] then [] else p[..|p| - 1]
    decreases |parts|
  {
    if parts != [] {
      var next := if parts[0] == "" || parts[0] == "." then base
                  else if parts[0] == ".." then Dir(base)
                  else base + [parts[0]];
      ResolveNext(next, parts[1..], part);
      assert (parts + [part])[1..] == parts[1..] + [part];
    } else {
      assert ([part])[1..] == [];
    }
  }

  /** p itself and everything above it. */
  function Ancestors(p: Path): set<Path> {
    set i | 0 <= i <= |p| :: p[..i]
  }

  /** The host's symbolic links: what realpath makes of a path, and which paths are links themselves. */
  datatype Host = Host(root: Path, realpath: Path -> Path, links: set<Path>) {

    /** realpath of a path that is no link itself is realpath of its directory plus its name. */
    ghost predicate Ok() {
      && realpath([]) == []
      && forall p: Path {:trigger realpath(p)} ::
        p != [] && p !in links ==> realpath(p) == realpath(Dir(p)) + [p[|p| - 1]]
    }

    function Full(path: string): Path {
      Resolve(root, Split(path))
    }

    /** The file a raw path ends up naming. */
    function Key(path: string): Path {
      realpath(Full(path))
    }

    function Parent(path: string): Path {
      realpath(Dir(Full(path)))
    }

    predicate IsLink(path: string) {
      Full(path) in links
    }

    /** str.startswith(root + os.sep) on resolved paths; nothing starts with "//". */
    predicate Inside(p: Path) {
      root != [] && root < p
    }

    predicate InsideOrRoot(p: Path) {
      p == root || Inside(p)
    }

    /** The boundary check: not empty, relative, and resolving strictly below the workspace root. */
    predicate ValidFilePath(path: string) {
      && !IsBlank(path)
      && path[0] != '/'
      && Key(path) != root
      && Inside(Key(path))
    }
  }

  /** Below the root, a target that is no link has its directory inside the workspace too. */
  lemma ParentInside(h: Host, path: string)
    requires h.Ok() && !h.IsLink(path) && h.Inside(h.Key(path))
    ensures h.InsideOrRoot(h.Parent(path))
  {
    var full := h.Full(path);
    if full != [] {
      assert h.Key(path) == h.Parent(path) + [full[|full| - 1]];
      assert h.root <= h.Parent(path);
    }
  }

  /** The mutable file system. */
  class FileSystem {
    var files: map<Path, Content>
    var dirs: set<Path>

    function View(): Disk
      reads this
    {
      Disk(files, dirs)
    }
  }
}
