/** In which order the walk meets the files, and so which ones a truncated listing names and what stopped it. */
module ListingOrder {
  import opened Text
  import opened Sorting
  import opened Workspace
  import opened TreeListing
  import opened ListingExactness

  /** The files of a directory come before those of its subdirectories, each in the order of their names. */
  predicate Precedes(p: seq<string>, q: seq<string>) {
    && p != [] && q != []
    && (|q| == 1 ==> |p| == 1)
    && if |p| > 1 && p[0] == q[0] then Precedes(p[1..], q[1..])
       else (|p| == 1 && |q| > 1) || (p[0] != q[0] && TextLeq(p[0], q[0]))
  }

  lemma {:induction false} PrecedesOneWay(p: seq<string>, q: seq<string>)
    requires Precedes(p, q)
    ensures !Precedes(q, p)
  {
    if |p| > 1 && p[0] == q[0] {
      PrecedesOneWay(p[1..], q[1..]);
    } else if |p| == 1 && |q| == 1 {
      TextLeqTotal(p[0], q[0]);
    } else if |p| > 1 {
      TextLeqTotal(p[0], q[0]);
    }
  }

  /** Two directories part at a pair of names, the first of which comes first. */
  predicate Ahead(a: seq<string>, b: seq<string>) {
    && a != [] && b != []
    && if a[0] == b[0] then Ahead(a[1..], b[1..]) else TextLeq(a[0], b[0])
  }

  lemma {:induction false} AheadPrecedes(a: seq<string>, b: seq<string>, p: seq<string>, q: seq<string>)
    requires Ahead(a, b) && p != [] && q != []
    ensures Precedes(a + p, b + q)
  {
    if a[0] == b[0] {
      AheadPrecedes(a[1..], b[1..], p, q);
      assert (a + p)[1..] == a[1..] + p && (b + q)[1..] == b[1..] + q;
    }
  }

  lemma {:induction false} AheadBelow(a: seq<string>, b: seq<string>, more: seq<string>)
    requires Ahead(a, b)
    ensures Ahead(a + more, b)
  {
    if a[0] == b[0] {
      AheadBelow(a[1..], b[1..], more);
      assert (a + more)[1..] == a[1..] + more;
    }
  }

  lemma {:induction false} SiblingsAhead(a: seq<string>, m: string, n: string)
    requires m != n && TextLeq(m, n)
    ensures Ahead(a + [m], a + [n]) && Precedes(a + [m], a + [n])
  {
    if a != [] {
      SiblingsAhead(a[1..], m, n);
      assert (a + [m])[1..] == a[1..] + [m] && (a + [n])[1..] == a[1..] + [n];
    }
  }

  lemma {:induction false} FileFirst(a: seq<string>, m: string, q: seq<string>)
    requires |q| > 1
    ensures Precedes(a + [m], a + q)
  {
    if a != [] {
      FileFirst(a[1..], m, q);
      assert (a + [m])[1..] == a[1..] + [m] && (a + q)[1..] == a[1..] + q;
    }
  }

  /** Directories wait in the order in which their files are to come. */
  ghost predicate InLine(stack: seq<Frame>) {
    forall i, j | 0 <= i < j < |stack| :: Ahead(stack[i].rel, stack[j].rel)
  }

  lemma NamesAscend(s: seq<Entry>, i: nat, j: nat)
    requires DistinctNames(s) && i < j < |Sort(s, NameLeq)|
    ensures Sort(s, NameLeq)[i].name != Sort(s, NameLeq)[j].name
    ensures TextLeq(Sort(s, NameLeq)[i].name, Sort(s, NameLeq)[j].name)
  {
    hide Sort;
    SortKeepsNames(s);
    EntryOrder();
    SortIsAscending(s, NameLeq);
    assert NameLeq(Sort(s, NameLeq)[i], Sort(s, NameLeq)[j]);
  }

  lemma EntryOrder()
    ensures TotalOrder(NameLeq)
  {
    hide TextLeq;
    TextOrder();
    forall x: Entry, y: Entry
      ensures NameLeq(x, y) || NameLeq(y, x)
    {
      assert TextLeq(x.name, y.name) || TextLeq(y.name, x.name);
    }
    forall x: Entry, y: Entry, z: Entry | NameLeq(x, y) && NameLeq(y, z)
      ensures NameLeq(x, z)
    {
      assert TextLeq(x.name, y.name) && TextLeq(y.name, z.name);
    }
  }

  lemma ChildrenInLine(f: Frame)
    requires ProperNames(f.entries)
    ensures InLine(Children(f))
  {
    hide Sort, Subdirs, Children, Ahead;
    FiltersKeepNames(f.entries);
    var r := Children(f);
    forall i, j | 0 <= i < j < |r|
      ensures Ahead(r[i].rel, r[j].rel)
    {
      var d := ChildAt(f, i);
      var e := ChildAt(f, j);
      NamesAscend(Subdirs(f.entries), i, j);
      SiblingsAhead(f.rel, d.name, e.name);
    }
  }

  lemma DescentInLine(stack: seq<Frame>)
    requires stack != [] && Proper(stack) && InLine(stack)
    ensures InLine(Children(stack[0]) + stack[1..])
  {
    hide Children, ProperNames, Slashless, Ahead;
    var f, c, rest := stack[0], Children(stack[0]), Children(stack[0]) + stack[1..];
    ChildrenInLine(f);
    forall i, j | 0 <= i < j < |rest|
      ensures Ahead(rest[i].rel, rest[j].rel)
    {
      if i < |c| <= j {
        var e := ChildEntry(f, rest[i]);
        assert rest[j] == stack[j - |c| + 1];
        AheadBelow(f.rel, rest[j].rel, [e.name]);
      }
    }
  }

  /** What a directory lists follows its sorted names. */
  lemma {:induction false} FilesInOrder(h: Host, rel: seq<string>, names: seq<Entry>, i: nat, j: nat)
    returns (a: nat, b: nat)
    requires i < j < |FilesOf(h, rel, names)|
    ensures a < b < |names|
    ensures FilesOf(h, rel, names)[i] == Shown(rel + [names[a].name])
    ensures FilesOf(h, rel, names)[j] == Shown(rel + [names[b].name])
  {
    hide Skipped, Shown;
    if Skipped(h, rel, names[0]) {
      a, b := FilesInOrder(h, rel, names[1..], i, j);
      a, b := a + 1, b + 1;
    } else if i > 0 {
      a, b := FilesInOrder(h, rel, names[1..], i - 1, j - 1);
      a, b := a + 1, b + 1;
    } else {
      FilesOfMembers(h, rel, names[1..], FilesOf(h, rel, names)[j]);
      var e :| e in names[1..] && FilesOf(h, rel, names)[j] == Shown(rel + [e.name]);
      b :| 0 <= b < |names[1..]| && names[1..][b] == e;
      a, b := 0, b + 1;
    }
  }

  /** p and q are paths as the walk shows them, in this order. */
  ghost predicate Ordered(p: seq<string>, q: seq<string>, r: string, t: string) {
    Precedes(p, q) && Slashless(p) && Slashless(q) && Shown(p) == r && Shown(q) == t
  }

  lemma FilesOrdered(h: Host, f: Frame, i: nat, j: nat) returns (p: seq<string>, q: seq<string>)
    requires Slashless(f.rel) && ProperNames(f.entries)
    requires i < j < |FilesOf(h, f.rel, Sort(Filenames(f.entries), NameLeq))|
    ensures var files := FilesOf(h, f.rel, Sort(Filenames(f.entries), NameLeq)); Ordered(p, q, files[i], files[j])
  {
    hide Sort, FilesOf, Skipped, Shown, Precedes, Filenames;
    var names := Sort(Filenames(f.entries), NameLeq);
    FiltersKeepNames(f.entries);
    SameMembers(Filenames(f.entries), NameLeq);
    var a, b := FilesInOrder(h, f.rel, names, i, j);
    NamesAscend(Filenames(f.entries), a, b);
    SiblingsAhead(f.rel, names[a].name, names[b].name);
    assert names[a] in Filenames(f.entries) && names[b] in Filenames(f.entries);
    p, q := f.rel + [names[a].name], f.rel + [names[b].name];
  }

  /** A file of the first directory comes before whatever the rest of the walk shows. */
  lemma FileBeforeRest(h: Host, stack: seq<Frame>, r: string, t: string) returns (p: seq<string>, q: seq<string>)
    requires stack != [] && StackOk(h, stack) && Proper(stack) && InLine(stack)
    requires r in FilesOf(h, stack[0].rel, Sort(Filenames(stack[0].entries), NameLeq))
    requires t in Walk(h, Children(stack[0]) + stack[1..])
    ensures Ordered(p, q, r, t)
  {
    hide Walk, FilesOf, Sort, Filenames, Skipped, Shown, Children, FrameOk, MayBeShown, ProperNames, Precedes, Ahead;
    var f, rest := stack[0], Children(stack[0]) + stack[1..];
    DescentIsOk(h, stack);
    DescentIsProper(stack);
    var path := FileOfFrame(h, f, r);
    var g, below := WalkIsSound(h, rest, t);
    ShownPathIsSlashless(g, below);
    p, q := f.rel + [path], g.rel + below;
    if g in Children(f) {
      var d := ChildEntry(f, g);
      ShownPaths(g.entries, below);
      FileFirst(f.rel, path, [d.name] + below);
      assert f.rel + ([d.name] + below) == q;
    } else {
      var k :| 1 <= k < |stack| && stack[k] == g;
      ShownPaths(g.entries, below);
      AheadPrecedes(f.rel, g.rel, [path], below);
    }
  }

  lemma FileOfFrame(h: Host, f: Frame, r: string) returns (name: string)
    requires Slashless(f.rel) && ProperNames(f.entries)
    requires r in FilesOf(h, f.rel, Sort(Filenames(f.entries), NameLeq))
    ensures Slashless(f.rel + [name]) && Shown(f.rel + [name]) == r
  {
    hide FilesOf, Sort, Skipped, Shown;
    var names := Sort(Filenames(f.entries), NameLeq);
    SameMembers(Filenames(f.entries), NameLeq);
    FilesOfMembers(h, f.rel, names, r);
    var e :| e in names && r == Shown(f.rel + [e.name]);
    name := e.name;
  }

  /** The walk meets the files in order. */
  lemma {:induction false} WalkInOrder(h: Host, stack: seq<Frame>, i: nat, j: nat)
    returns (p: seq<string>, q: seq<string>)
    requires StackOk(h, stack) && Proper(stack) && InLine(stack) && i < j < |Walk(h, stack)|
    ensures Ordered(p, q, Walk(h, stack)[i], Walk(h, stack)[j])
    decreases StackSize(stack)
  {
    hide Walk, FilesOf, Sort, Filenames, Children, FrameOk, StackOk, Ordered, StackSize, InLine, ProperNames, Slashless;
    WalkOfNothing(h);
    var f, rest := stack[0], Children(stack[0]) + stack[1..];
    var files := FilesOf(h, f.rel, Sort(Filenames(f.entries), NameLeq));
    WalkStep(h, stack);
    DescentIsOk(h, stack);
    DescentIsProper(stack);
    DescentInLine(stack);
    if j < |files| {
      p, q := FilesOrdered(h, f, i, j);
    } else if i < |files| {
      p, q := FileBeforeRest(h, stack, files[i], Walk(h, rest)[j - |files|]);
    } else {
      p, q := WalkInOrder(h, rest, i - |files|, j - |files|);
    }
  }

  /** A listing names, with any file, every file that comes before it: only the last of the walk are left out. */
  lemma ListingHasNoGaps(h: Host, top: seq<Entry>, maxEntries: int, maxTotalChars: int, results: seq<string>,
                         truncated: bool, p: seq<string>, q: seq<string>)
    requires h.Ok() && h.root != [] && h.realpath(h.root) == h.root && Faithful(h, h.root, top) && ProperNames(top)
    requires IsListing(h, top, maxEntries, maxTotalChars, results, truncated)
    requires MayBeShown(top, p) && MayBeShown(top, q) && Precedes(p, q)
    ensures Shown(q) in results ==> Shown(p) in results
  {
    hide Walk, Shown, Faithful, ProperNames, LongestWithin, Sort, LeadsToFile, Unsuspicious, TextLeq;
    var f := Frame([], top);
    var walk := Walk(h, [f]);
    var k: nat :| ListingEnds(walk, k, maxEntries, maxTotalChars, results, truncated);
    EndsInside(walk, k, maxEntries, maxTotalChars, results, truncated);
    SameMembers(walk[..k], TextLeq);
    TopFrame(h, top);
    ListingIsExact(h, top, Shown(p));
    if Shown(q) in results && Shown(p) !in results {
      var i := FoundBehind(walk, k, Shown(p));
      var j :| 0 <= j < k && walk[j] == Shown(q);
      var b, a := WalkInOrder(h, [f], j, i);
      PathIsSlashless(top, p);
      PathIsSlashless(top, q);
      SameShown(a, p);
      SameShown(b, q);
      PrecedesOneWay(p, q);
      assert false;
    }
  }

  lemma FoundBehind(s: seq<string>, k: nat, x: string) returns (i: nat)
    requires k <= |s| && x in s && x !in s[..k]
    ensures k <= i < |s| && s[i] == x
  {
    assert s == s[..k] + s[k..];
    i :| 0 <= i < |s[k..]| && s[k..][i] == x;
    i := k + i;
  }

  lemma SameShown(a: seq<string>, p: seq<string>)
    requires a != [] && p != [] && Slashless(a) && Slashless(p) && Shown(a) == Shown(p)
    ensures a == p
  {
    ShownInjective(a, p);
  }

  lemma {:induction false} CharsCons(x: string, s: seq<string>)
    ensures Chars([x] + s) == |x| + 1 + Chars(s)
  {
    var t := [x] + s;
    if s == [] {
      assert t[..|t| - 1] == [];
    } else {
      CharsCons(x, s[..|s| - 1]);
      assert t[..|t| - 1] == [x] + s[..|s| - 1];
    }
  }

  /** The running total is the length of the joined listing, with one character to end it. */
  lemma {:induction false} CharsAreJoined(s: seq<string>)
    ensures Chars(s) == if s == [] then 0 else |Join(s)| + 1
  {
    if s != [] {
      CharsAreJoined(s[1..]);
      CharsCons(s[0], s[1..]);
      assert s == [s[0]] + s[1..];
    }
  }

  lemma {:induction false} CharsOfInsert(x: string, s: seq<string>)
    ensures Chars(Insert(x, s, TextLeq)) == |x| + 1 + Chars(s)
  {
    hide Chars, TextLeq;
    if s != [] && !TextLeq(x, s[0]) {
      CharsOfInsert(x, s[1..]);
      CharsCons(s[0], Insert(x, s[1..], TextLeq));
      CharsCons(s[0], s[1..]);
      assert s == [s[0]] + s[1..];
    } else {
      CharsCons(x, s);
      assert s == [] ==> [x] + s == [x];
    }
  }

  lemma {:induction false} CharsOfSort(s: seq<string>)
    ensures Chars(Sort(s, TextLeq)) == Chars(s)
  {
    if s != [] {
      CharsOfSort(s[1..]);
      CharsOfInsert(s[0], Sort(s[1..], TextLeq));
      CharsCons(s[0], s[1..]);
      assert s == [s[0]] + s[1..];
    }
  }

  lemma PathOfEntry(h: Host, top: seq<Entry>, r: string) returns (path: seq<string>)
    requires h.Ok() && h.root != [] && h.realpath(h.root) == h.root && Faithful(h, h.root, top)
    requires r in Walk(h, [Frame([], top)])
    ensures path != [] && MayBeShown(top, path) && Shown(path) == r
  {
    ListingIsExact(h, top, r);
    hide Shown, Walk, Faithful, Unsuspicious;
    path :| MayBeShown(top, path) && r == Shown(path);
  }

  /** The length of a listing, joined by single characters and ended by one. */
  function Length(results: seq<string>): nat {
    if results == [] then 0 else |Join(results)| + 1
  }

  /**
   * Both caps hold of the listing, but that one file may always be listed; it calls itself truncated when it
   * has as many entries as it may, or when a file that may be shown is missing because it would not have fit.
   */
  lemma ListingStops(h: Host, top: seq<Entry>, maxEntries: int, maxTotalChars: int, results: seq<string>,
                     truncated: bool)
    requires h.Ok() && h.root != [] && h.realpath(h.root) == h.root && Faithful(h, h.root, top) && ProperNames(top)
    requires IsListing(h, top, maxEntries, maxTotalChars, results, truncated)
    ensures results != [] ==> (|results| == 1 || |results| <= maxEntries) && Length(results) <= maxTotalChars
    ensures truncated <==>
      || (results != [] && |results| >= maxEntries)
      || exists path :: MayBeShown(top, path) && path != [] && Shown(path) !in results
                        && Length(results) + |Shown(path)| + 1 > maxTotalChars
  {
    hide Walk, Shown, Faithful, ProperNames, Sort, MayBeShown, StackOk, Proper;
    var f := Frame([], top);
    var walk := Walk(h, [f]);
    var k: nat :| ListingEnds(walk, k, maxEntries, maxTotalChars, results, truncated);
    SameMembers(walk[..k], TextLeq);
    CharsOfSort(walk[..k]);
    CharsAreJoined(results);
    ListingAgrees(h, top, maxEntries, maxTotalChars, results, truncated);
    if k < |walk| {
      TopFrame(h, top);
      NothingListedTwice(h, [f]);
      assert walk[k] !in walk[..k];
      var path := PathOfEntry(h, top, walk[k]);
      assert walk[..k + 1][..k] == walk[..k];
    }
  }
}
