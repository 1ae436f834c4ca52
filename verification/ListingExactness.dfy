/** The listing names exactly the files that may be shown: pruning loses nothing and hides nothing else. */
module ListingExactness {
  import opened Text
  import opened Sorting
  import opened SensitivePath
  import opened Workspace
  import opened TreeListing

  /** The path leads through directories, never through a link, to something that is neither. */
  ghost predicate LeadsToFile(entries: seq<Entry>, path: seq<string>)
    decreases |path|
  {
    && path != []
    && exists e | e in entries ::
         && e.name == path[0]
         && if |path| == 1 then e.node.File? else e.node.Directory? && LeadsToFile(e.node.entries, path[1..])
  }

  /** The deny list has nothing against any name of the path. */
  predicate Unsuspicious(path: seq<string>) {
    forall n | n in path :: !IsSensitivePath(n)
  }

  ghost predicate MayBeShown(entries: seq<Entry>, path: seq<string>) {
    LeadsToFile(entries, path) && Unsuspicious(path)
  }

  /** The host's links below `at` are those of the tree. */
  ghost predicate Faithful(h: Host, at: Path, entries: seq<Entry>)
    decreases entries
  {
    forall e | e in entries ::
      && (at + [e.name] in h.links <==> e.node.Link?)
      && (e.node.Directory? ==> Faithful(h, at + [e.name], e.node.entries))
  }

  ghost predicate FrameOk(h: Host, f: Frame) {
    && Unsuspicious(f.rel)
    && h.realpath(h.root + f.rel) == h.root + f.rel
    && Faithful(h, h.root + f.rel, f.entries)
  }

  ghost predicate StackOk(h: Host, stack: seq<Frame>) {
    && h.Ok() && h.root != []
    && forall f | f in stack :: FrameOk(h, f)
  }

  lemma ShownSplits(head: string, rest: seq<string>)
    requires rest != []
    ensures Shown([head] + rest) == ForwardSlashes(head) + "/" + Shown(rest)
    ensures Split(Shown([head] + rest)) == Split(ForwardSlashes(head)) + Split(Shown(rest))
  {
    assert ([head] + rest)[1..] == rest;
    assert Join([head] + rest) == head + "/" + Join(rest);
    SplitConcat(ForwardSlashes(head), Shown(rest));
  }

  /** A path is on the deny list exactly when one of its names is. */
  lemma {:induction false} SensitiveIffSomeName(path: seq<string>)
    requires path != []
    ensures IsSensitivePath(Shown(path)) <==> !Unsuspicious(path)
  {
    hide IsSensitivePath;
    assert ForwardSlashes(Shown(path)) == Shown(path);
    SensitiveIffComponent(Shown(path));
    SensitiveIffComponent(path[0]);
    if |path| == 1 {
      assert path == [path[0]];
    } else {
      var rest := path[1..];
      assert path == [path[0]] + rest;
      ShownSplits(path[0], rest);
      SensitiveIffSomeName(rest);
      assert ForwardSlashes(Shown(rest)) == Shown(rest);
      SensitiveIffComponent(Shown(rest));
    }
  }

  lemma NotSkipped(h: Host, f: Frame, e: Entry)
    requires h.Ok() && h.root != [] && FrameOk(h, f) && e in f.entries && !e.node.Directory?
    ensures Skipped(h, f.rel, e) <==> !(e.node.File? && !IsSensitivePath(e.name))
  {
    hide IsSensitivePath, Shown;
    var path := f.rel + [e.name];
    SensitiveIffSomeName(path);
    if e.node.File? {
      var full := h.root + f.rel + [e.name];
      assert full == (h.root + f.rel) + [e.name] && Dir(full) == h.root + f.rel;
      assert h.realpath(full) == full;
      assert h.root <= full;
    }
  }

  lemma {:induction false} FilesOfMembers(h: Host, rel: seq<string>, names: seq<Entry>, r: string)
    ensures r in FilesOf(h, rel, names) <==> exists e | e in names :: !Skipped(h, rel, e) && r == Shown(rel + [e.name])
  {
    hide Skipped, Shown;
    if names != [] {
      FilesOfMembers(h, rel, names[1..], r);
      assert names == [names[0]] + names[1..];
    }
  }

  lemma ChildEntry(f: Frame, g: Frame) returns (e: Entry)
    requires g in Children(f)
    ensures e in f.entries && e.node.Directory? && !IsSensitivePath(e.name)
    ensures g == Frame(f.rel + [e.name], e.node.entries)
  {
    var dirs := Sort(Subdirs(f.entries), NameLeq);
    SameMembers(Subdirs(f.entries), NameLeq);
    var i :| 0 <= i < |dirs| && g == Frame(f.rel + [dirs[i].name], dirs[i].node.entries);
    e := dirs[i];
  }

  lemma ChildIsOk(h: Host, f: Frame, e: Entry)
    requires h.Ok() && FrameOk(h, f) && e in f.entries && e.node.Directory? && !IsSensitivePath(e.name)
    ensures FrameOk(h, Frame(f.rel + [e.name], e.node.entries))
  {
    hide IsSensitivePath;
    var full := h.root + (f.rel + [e.name]);
    assert full == (h.root + f.rel) + [e.name] && Dir(full) == h.root + f.rel;
  }

  lemma DescentIsOk(h: Host, stack: seq<Frame>)
    requires stack != [] && StackOk(h, stack)
    ensures StackOk(h, Children(stack[0]) + stack[1..])
  {
    hide IsSensitivePath, FrameOk, Children;
    var f := stack[0];
    forall g | g in Children(f) + stack[1..] ensures FrameOk(h, g) {
      if g in Children(f) {
        var e := ChildEntry(f, g);
        ChildIsOk(h, f, e);
      }
    }
  }

  lemma FileMayBeShown(h: Host, f: Frame, r: string) returns (path: seq<string>)
    requires h.Ok() && h.root != [] && FrameOk(h, f)
    requires r in FilesOf(h, f.rel, Sort(Filenames(f.entries), NameLeq))
    ensures MayBeShown(f.entries, path) && r == Shown(f.rel + path)
  {
    hide Skipped, IsSensitivePath, Shown, FrameOk, FilesOf, Sort;
    var names := Sort(Filenames(f.entries), NameLeq);
    SameMembers(Filenames(f.entries), NameLeq);
    FilesOfMembers(h, f.rel, names, r);
    var e :| e in names && !Skipped(h, f.rel, e) && r == Shown(f.rel + [e.name]);
    NotSkipped(h, f, e);
    path := [e.name];
  }

  lemma ChildMayBeShown(f: Frame, g: Frame, rest: seq<string>) returns (path: seq<string>)
    requires g in Children(f) && MayBeShown(g.entries, rest)
    ensures MayBeShown(f.entries, path) && f.rel + path == g.rel + rest
  {
    hide IsSensitivePath, Children;
    var e := ChildEntry(f, g);
    path := [e.name] + rest;
    assert path[1..] == rest;
  }

  /** Whatever the walk lists may be shown. */
  lemma {:induction false} WalkIsSound(h: Host, stack: seq<Frame>, r: string) returns (f: Frame, path: seq<string>)
    requires StackOk(h, stack) && r in Walk(h, stack)
    ensures f in stack && MayBeShown(f.entries, path) && r == Shown(f.rel + path)
    decreases StackSize(stack)
  {
    hide MayBeShown, Shown, Children, FrameOk, Walk, FilesOf, Sort, StackSize;
    WalkOfNothing(h);
    f := stack[0];
    WalkStep(h, stack);
    if r in FilesOf(h, f.rel, Sort(Filenames(f.entries), NameLeq)) {
      path := FileMayBeShown(h, f, r);
    } else {
      DescentIsOk(h, stack);
      var g, rest := WalkIsSound(h, Children(f) + stack[1..], r);
      if g in stack[1..] {
        f, path := g, rest;
      } else {
        path := ChildMayBeShown(f, g, rest);
      }
    }
  }

  lemma EntryIsDescended(f: Frame, e: Entry)
    requires e in f.entries && e.node.Directory? && !IsSensitivePath(e.name)
    ensures Frame(f.rel + [e.name], e.node.entries) in Children(f)
  {
    var dirs := Sort(Subdirs(f.entries), NameLeq);
    SameMembers(Subdirs(f.entries), NameLeq);
    var i :| 0 <= i < |dirs| && dirs[i] == e;
    assert Children(f)[i] == Frame(f.rel + [e.name], e.node.entries);
  }

  lemma ShownFileIsListed(h: Host, f: Frame, path: seq<string>)
    requires h.Ok() && h.root != [] && FrameOk(h, f) && MayBeShown(f.entries, path) && |path| == 1
    ensures Shown(f.rel + path) in FilesOf(h, f.rel, Sort(Filenames(f.entries), NameLeq))
  {
    hide Skipped, IsSensitivePath, Shown, FrameOk, FilesOf, Sort;
    var e :| e in f.entries && e.name == path[0] && e.node.File?;
    assert path == [e.name];
    var names := Sort(Filenames(f.entries), NameLeq);
    SameMembers(Filenames(f.entries), NameLeq);
    NotSkipped(h, f, e);
    FilesOfMembers(h, f.rel, names, Shown(f.rel + path));
  }

  lemma ShownBelowChild(f: Frame, path: seq<string>) returns (g: Frame)
    requires MayBeShown(f.entries, path) && |path| > 1
    ensures g in Children(f) && MayBeShown(g.entries, path[1..]) && f.rel + path == g.rel + path[1..]
  {
    hide IsSensitivePath, Children;
    var e :| e in f.entries && e.name == path[0] && e.node.Directory? && LeadsToFile(e.node.entries, path[1..]);
    EntryIsDescended(f, e);
    g := Frame(f.rel + [e.name], e.node.entries);
  }

  /** Whatever may be shown the walk lists. */
  lemma {:induction false} WalkIsComplete(h: Host, stack: seq<Frame>, f: Frame, path: seq<string>)
    requires StackOk(h, stack) && f in stack && MayBeShown(f.entries, path)
    ensures path != [] && Shown(f.rel + path) in Walk(h, stack)
    decreases StackSize(stack)
  {
    hide MayBeShown, Shown, Children, FrameOk, Walk, FilesOf, Sort, StackSize;
    WalkStep(h, stack);
    ShownPaths(f.entries, path);
    var top, rest := stack[0], Children(stack[0]) + stack[1..];
    DescentIsOk(h, stack);
    if f != top {
      WalkIsComplete(h, rest, f, path);
    } else if |path| == 1 {
      ShownFileIsListed(h, f, path);
    } else {
      var g := ShownBelowChild(f, path);
      WalkIsComplete(h, rest, g, path[1..]);
    }
  }

  /** r is how some path that may be shown is shown. */
  ghost predicate IsShown(top: seq<Entry>, r: string) {
    exists path :: MayBeShown(top, path) && r == Shown(path)
  }

  /**
   * The uncapped walk of a workspace lists exactly the paths that lead to a file without passing a link
   * and carry no name on the deny list; the containment check on resolved paths never costs a file.
   */
  lemma ListingIsExact(h: Host, top: seq<Entry>, r: string)
    requires h.Ok() && h.root != [] && h.realpath(h.root) == h.root && Faithful(h, h.root, top)
    ensures r in Walk(h, [Frame([], top)]) <==> IsShown(top, r)
  {
    var f := Frame([], top);
    assert h.root + [] == h.root;
    if r in Walk(h, [f]) {
      var g, path := WalkIsSound(h, [f], r);
      assert g.rel + path == path;
    }
    if path :| MayBeShown(top, path) && r == Shown(path) {
      assert f.rel + path == path;
      WalkIsComplete(h, [f], f, path);
    }
  }

  /** Names as a POSIX file system hands them out, none with a backslash, and each once per directory. */
  ghost predicate ProperNames(entries: seq<Entry>)
    decreases entries
  {
    && (forall e | e in entries :: '/' !in e.name && '\\' !in e.name)
    && DistinctNames(entries)
    && (forall e | e in entries && e.node.Directory? :: ProperNames(e.node.entries))
  }

  ghost predicate DistinctNames(entries: seq<Entry>) {
    forall i, j | 0 <= i < j < |entries| :: entries[i].name != entries[j].name
  }

  predicate Slashless(path: seq<string>) {
    forall n | n in path :: '/' !in n && '\\' !in n
  }

  ghost predicate Proper(stack: seq<Frame>) {
    && (forall f | f in stack :: Slashless(f.rel) && ProperNames(f.entries))
    && (forall i, j | 0 <= i < j < |stack| :: !(stack[i].rel <= stack[j].rel) && !(stack[j].rel <= stack[i].rel))
  }

  lemma {:induction false} SlashesStay(s: string)
    requires '\\' !in s
    ensures ForwardSlashes(s) == s
  {
    var r := ForwardSlashes(s);
    forall i | 0 <= i < |s| ensures r[i] == s[i] {
      assert s[i] in s;
    }
  }

  lemma {:induction false} JoinIsPlain(path: seq<string>)
    requires path != [] && Slashless(path)
    ensures '\\' !in Join(path)
  {
    if |path| > 1 {
      JoinIsPlain(path[1..]);
    }
  }

  /** Different paths are shown differently. */
  lemma ShownInjective(a: seq<string>, b: seq<string>)
    requires a != [] && b != [] && Slashless(a) && Slashless(b) && Shown(a) == Shown(b)
    ensures a == b
  {
    JoinIsPlain(a);
    JoinIsPlain(b);
    SlashesStay(Join(a));
    SlashesStay(Join(b));
    SplitJoin(a);
    SplitJoin(b);
  }

  lemma {:induction false} PathIsSlashless(entries: seq<Entry>, path: seq<string>)
    requires ProperNames(entries) && LeadsToFile(entries, path)
    ensures Slashless(path)
    decreases |path|
  {
    var e :| e in entries && e.name == path[0]
             && if |path| == 1 then e.node.File? else e.node.Directory? && LeadsToFile(e.node.entries, path[1..]);
    assert path == [path[0]] + path[1..];
    if |path| > 1 {
      PathIsSlashless(e.node.entries, path[1..]);
    }
  }

  lemma NewName(e: Entry, tail: seq<Entry>)
    requires DistinctNames(tail) && forall x | x in tail :: x.name != e.name
    ensures DistinctNames([e] + tail)
  {
  }

  lemma HeadIsNew(entries: seq<Entry>)
    requires entries != [] && DistinctNames(entries)
    ensures DistinctNames(entries[1..]) && forall x | x in entries[1..] :: x.name != entries[0].name
  {
  }

  lemma NoNames()
    ensures DistinctNames([])
  {
  }

  lemma {:induction false} InsertKeepsNames(x: Entry, s: seq<Entry>)
    requires DistinctNames([x] + s)
    ensures DistinctNames(Insert(x, s, NameLeq))
  {
    hide DistinctNames, NameLeq;
    assert ([x] + s)[1..] == s;
    HeadIsNew([x] + s);
    assert s == [] ==> [x] + s == [x];
    if s != [] && !NameLeq(x, s[0]) {
      HeadIsNew(s);
      NewName(x, s[1..]);
      InsertKeepsNames(x, s[1..]);
      var r := Insert(x, s[1..], NameLeq);
      forall y | y in r ensures y.name != s[0].name {
        assert y in multiset(r);
      }
      NewName(s[0], r);
    }
  }

  lemma {:induction false} SortKeepsNames(s: seq<Entry>)
    requires DistinctNames(s)
    ensures DistinctNames(Sort(s, NameLeq))
  {
    if s != [] {
      SortKeepsNames(s[1..]);
      SameMembers(s[1..], NameLeq);
      var t := Sort(s[1..], NameLeq);
      forall j | 0 <= j < |t| ensures t[j].name != s[0].name {
        assert t[j] in s[1..];
      }
      InsertKeepsNames(s[0], t);
    }
  }

  lemma {:induction false} FiltersKeepNames(entries: seq<Entry>)
    requires DistinctNames(entries)
    ensures DistinctNames(Filenames(entries)) && DistinctNames(Subdirs(entries))
  {
    hide IsSensitivePath, DistinctNames;
    if entries == [] {
      NoNames();
    } else {
      HeadIsNew(entries);
      FiltersKeepNames(entries[1..]);
      assert [] + Filenames(entries[1..]) == Filenames(entries[1..]);
      NewName(entries[0], Filenames(entries[1..]));
      NewName(entries[0], Subdirs(entries[1..]));
    }
  }

  lemma SameLast(a: seq<string>, m: string, n: string)
    requires a + [m] == a + [n]
    ensures m == n
  {
    assert (a + [m])[|a|] == (a + [n])[|a|];
  }

  lemma {:induction false} FilesDistinct(h: Host, rel: seq<string>, names: seq<Entry>)
    requires Slashless(rel) && DistinctNames(names) && forall e | e in names :: '/' !in e.name && '\\' !in e.name
    ensures Distinct(FilesOf(h, rel, names))
  {
    hide Skipped, Shown;
    if names != [] {
      FilesDistinct(h, rel, names[1..]);
      var shown := Shown(rel + [names[0].name]);
      if shown in FilesOf(h, rel, names[1..]) {
        FilesOfMembers(h, rel, names[1..], shown);
        var e :| e in names[1..] && shown == Shown(rel + [e.name]);
        ShownInjective(rel + [names[0].name], rel + [e.name]);
        SameLast(rel, names[0].name, e.name);
      }
    }
  }

  lemma ChildAt(f: Frame, i: nat) returns (e: Entry)
    requires i < |Children(f)|
    ensures i < |Sort(Subdirs(f.entries), NameLeq)| && e == Sort(Subdirs(f.entries), NameLeq)[i]
    ensures Children(f)[i] == Frame(f.rel + [e.name], if e.node.Directory? then e.node.entries else [])
  {
    SameMembers(Subdirs(f.entries), NameLeq);
    e := Sort(Subdirs(f.entries), NameLeq)[i];
  }

  lemma ChildrenProper(f: Frame)
    requires Slashless(f.rel) && ProperNames(f.entries)
    ensures Proper(Children(f))
  {
    hide IsSensitivePath, Children, Sort, Subdirs;
    FiltersKeepNames(f.entries);
    SortKeepsNames(Subdirs(f.entries));
    var r := Children(f);
    forall i, j | 0 <= i < j < |r| ensures !(r[i].rel <= r[j].rel) && !(r[j].rel <= r[i].rel) {
      var d := ChildAt(f, i);
      var e := ChildAt(f, j);
      Siblings(f.rel, d.name, e.name);
    }
    forall g | g in r ensures Slashless(g.rel) && ProperNames(g.entries) {
      var e := ChildEntry(f, g);
    }
  }

  lemma Siblings(a: seq<string>, m: string, n: string)
    ensures a + [m] <= a + [n] <==> m == n
  {
    if a + [m] <= a + [n] {
      SameLast(a, m, n);
    }
  }

  lemma DescentIsProper(stack: seq<Frame>)
    requires stack != [] && Proper(stack)
    ensures Proper(Children(stack[0]) + stack[1..])
  {
    hide IsSensitivePath, Children, ProperNames, Slashless;
    var f, c, rest := stack[0], Children(stack[0]), Children(stack[0]) + stack[1..];
    ChildrenProper(f);
    forall i, j | 0 <= i < |c| <= j < |rest| ensures !(rest[i].rel <= rest[j].rel) && !(rest[j].rel <= rest[i].rel) {
      var e := ChildEntry(f, rest[i]);
      assert rest[i].rel == f.rel + [e.name] && rest[j] == stack[j - |c| + 1];
      Apart(f.rel, e.name, stack[j - |c| + 1].rel);
    }
  }

  lemma Apart(a: seq<string>, n: string, b: seq<string>)
    ensures a + [n] <= b ==> a <= b
    ensures b <= a + [n] ==> b <= a || a <= b
  {
  }

  lemma Below(a: seq<string>, n: string, b: seq<string>, path: seq<string>)
    requires a + [n] == b + path && path != []
    ensures b <= a
  {
    assert b == (a + [n])[..|b|];
  }

  /** Two frames of a walk never meet in the same path. */
  lemma FramesApart(stack: seq<Frame>, e: Entry, g: Frame, path: seq<string>)
    requires stack != [] && Proper(stack) && g in Children(stack[0]) + stack[1..] && path != []
    ensures stack[0].rel + [e.name] != g.rel + path
  {
    hide IsSensitivePath, Children, ProperNames, Slashless;
    var f := stack[0];
    if f.rel + [e.name] == g.rel + path {
      Below(f.rel, e.name, g.rel, path);
      if g in Children(f) {
        var d := ChildEntry(f, g);
      }
    }
  }

  /** A file listed from the top directory is not met again in the rest of the walk. */
  lemma NotMetAgain(h: Host, stack: seq<Frame>, r: string)
    requires stack != [] && StackOk(h, stack) && Proper(stack)
    requires r in FilesOf(h, stack[0].rel, Sort(Filenames(stack[0].entries), NameLeq))
    ensures r !in Walk(h, Children(stack[0]) + stack[1..])
  {
    hide MayBeShown, Skipped, Shown, Children, FrameOk, Walk, FilesOf, Sort, StackSize;
    var f, rest := stack[0], Children(stack[0]) + stack[1..];
    DescentIsOk(h, stack);
    DescentIsProper(stack);
    if r in Walk(h, rest) {
      var names := Sort(Filenames(f.entries), NameLeq);
      SameMembers(Filenames(f.entries), NameLeq);
      FilesOfMembers(h, f.rel, names, r);
      var e :| e in names && r == Shown(f.rel + [e.name]);
      var g, path := WalkIsSound(h, rest, r);
      ShownPathIsSlashless(g, path);
      ShownInjective(f.rel + [e.name], g.rel + path);
      FramesApart(stack, e, g, path);
    }
  }

  lemma ShownPathIsSlashless(g: Frame, path: seq<string>)
    requires Slashless(g.rel) && ProperNames(g.entries) && MayBeShown(g.entries, path)
    ensures path != [] && Slashless(g.rel + path)
  {
    hide IsSensitivePath, ProperNames;
    PathIsSlashless(g.entries, path);
  }

  lemma DistinctConcat<T(!new)>(a: seq<T>, b: seq<T>)
    requires Distinct(a) && Distinct(b) && forall x | x in a :: x !in b
    ensures Distinct(a + b)
  {
    forall i, j | 0 <= i < j < |a + b| ensures (a + b)[i] != (a + b)[j] {
      if i < |a| <= j {
        assert b[j - |a|] in b;
      }
    }
  }

  /** No file is listed twice. */
  lemma {:induction false} NothingListedTwice(h: Host, stack: seq<Frame>)
    requires StackOk(h, stack) && Proper(stack)
    ensures Distinct(Walk(h, stack))
    decreases StackSize(stack)
  {
    hide Skipped, Shown, Children, FrameOk, Walk, FilesOf, Sort, StackSize, StackOk;
    WalkOfNothing(h);
    if stack != [] {
      var f, rest := stack[0], Children(stack[0]) + stack[1..];
      var names := Sort(Filenames(f.entries), NameLeq);
      WalkStep(h, stack);
      DescentIsOk(h, stack);
      DescentIsProper(stack);
      NothingListedTwice(h, rest);
      SameMembers(Filenames(f.entries), NameLeq);
      FiltersKeepNames(f.entries);
      SortKeepsNames(Filenames(f.entries));
      FilesDistinct(h, f.rel, names);
      forall r | r in FilesOf(h, f.rel, names) ensures r !in Walk(h, rest) {
        NotMetAgain(h, stack, r);
      }
      DistinctConcat(FilesOf(h, f.rel, names), Walk(h, rest));
    }
  }

  lemma PrefixStaysDistinct<T(!new)>(s: seq<T>, k: nat)
    requires Distinct(s) && k <= |s|
    ensures Distinct(s[..k])
  {
  }

  /**
   * What a listing of a workspace says: in order, without repeats, and only files that may be shown; and if
   * it does not call itself truncated, all of them.
   */
  lemma ListingAgrees(h: Host, top: seq<Entry>, maxEntries: int, maxTotalChars: int, results: seq<string>,
                      truncated: bool)
    requires h.Ok() && h.root != [] && h.realpath(h.root) == h.root && Faithful(h, h.root, top) && ProperNames(top)
    requires IsListing(h, top, maxEntries, maxTotalChars, results, truncated)
    ensures Ascending(results, TextLeq) && Distinct(results)
    ensures forall r | r in results :: IsShown(top, r)
    ensures !truncated ==> forall path | MayBeShown(top, path) :: path != [] && Shown(path) in results
  {
    hide Walk, MayBeShown, Shown, Faithful, ProperNames, LongestWithin, Sort;
    var f := Frame([], top);
    var walk := Walk(h, [f]);
    var k: nat :| ListingEnds(walk, k, maxEntries, maxTotalChars, results, truncated);
    assert k <= |walk| by { EndsInside(walk, k, maxEntries, maxTotalChars, results, truncated); }
    TopFrame(h, top);
    NothingListedTwice(h, [f]);
    PrefixStaysDistinct(walk, k);
    TextOrder();
    SortIsAscending(walk[..k], TextLeq);
    SortKeepsDistinct(walk[..k], TextLeq);
    SameMembers(walk[..k], TextLeq);
    forall r | r in results ensures IsShown(top, r) {
      assert r in walk[..k];
      ListingIsExact(h, top, r);
    }
    if !truncated {
      assert walk[..k] == walk;
      forall path | MayBeShown(top, path) ensures path != [] && Shown(path) in results {
        ShownPaths(top, path);
        ListingIsExact(h, top, Shown(path));
        assert Shown(path) in walk;
      }
    }
  }

  lemma ShownPaths(top: seq<Entry>, path: seq<string>)
    requires MayBeShown(top, path)
    ensures path != []
  {
  }

  lemma EndsInside(walk: seq<string>, k: nat, maxEntries: int, maxTotalChars: int, results: seq<string>,
                   truncated: bool)
    requires ListingEnds(walk, k, maxEntries, maxTotalChars, results, truncated)
    ensures k <= |walk| && results == Sort(walk[..k], TextLeq) && (!truncated ==> k == |walk|)
  {
  }

  lemma TopFrame(h: Host, top: seq<Entry>)
    requires h.Ok() && h.root != [] && h.realpath(h.root) == h.root && Faithful(h, h.root, top) && ProperNames(top)
    ensures StackOk(h, [Frame([], top)]) && Proper([Frame([], top)])
  {
    hide Faithful, ProperNames;
    assert h.root + [] == h.root;
  }
}
