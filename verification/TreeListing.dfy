/** The sandboxed recursive listing (scoped_file_reader.py): which files it names, and where it stops. */
module TreeListing {
  import opened Wrappers
  import opened Text
  import opened Sorting
  import opened SensitivePath
  import opened Workspace

  /** A directory tree; File is whatever is neither a directory nor a symbolic link. */
  datatype Node = File | Link | Directory(entries: seq<Entry>)

  datatype Entry = Entry(name: string, node: Node)

  predicate NameLeq(a: Entry, b: Entry) {
    TextLeq(a.name, b.name)
  }

  function NodeSize(n: Node): nat
    decreases n, 0
  {
    if n.Directory? then EntriesSize(n.entries) else 0
  }

  function EntriesSize(entries: seq<Entry>): nat
    decreases entries, 1
  {
    if entries == [] then 0 else 1 + NodeSize(entries[0].node) + EntriesSize(entries[1..])
  }

  /** dirnames after pruning: neither sensitive nor links. */
  function Subdirs(entries: seq<Entry>): (r: seq<Entry>)
    ensures forall e | e in r :: e in entries && e.node.Directory? && !IsSensitivePath(e.name)
    ensures forall e | e in entries && e.node.Directory? && !IsSensitivePath(e.name) :: e in r
    ensures EntriesSize(r) <= EntriesSize(entries)
  {
    if entries == [] then []
    else
      assert entries == [entries[0]] + entries[1..];
      var e, rest := entries[0], Subdirs(entries[1..]);
      if e.node.Directory? && !IsSensitivePath(e.name) then
        assert ([e] + rest)[1..] == rest;
        [e] + rest
      else rest
  }

  function Filenames(entries: seq<Entry>): (r: seq<Entry>)
    ensures forall e :: e in r <==> e in entries && !e.node.Directory?
  {
    if entries == [] then []
    else
      assert entries == [entries[0]] + entries[1..];
      (if entries[0].node.Directory? then [] else [entries[0]]) + Filenames(entries[1..])
  }

  lemma {:induction false} SortKeepsSize(s: seq<Entry>)
    ensures EntriesSize(Sort(s, NameLeq)) == EntriesSize(s)
  {
    if s != [] {
      SortKeepsSize(s[1..]);
      InsertAddsSize(s[0], Sort(s[1..], NameLeq));
    }
  }

  lemma {:induction false} InsertAddsSize(x: Entry, s: seq<Entry>)
    ensures EntriesSize(Insert(x, s, NameLeq)) == 1 + NodeSize(x.node) + EntriesSize(s)
  {
    if s != [] && !NameLeq(x, s[0]) {
      InsertAddsSize(x, s[1..]);
    } else {
      assert ([x] + s)[1..] == s;
    }
  }

  /** A directory the walk is about to visit, with its path below the root. */
  datatype Frame = Frame(rel: seq<string>, entries: seq<Entry>)

  function StackSize(stack: seq<Frame>): nat {
    if stack == [] then 0 else 1 + EntriesSize(stack[0].entries) + StackSize(stack[1..])
  }

  /** The visits a directory leads to, in sorted order. */
  function Descend(rel: seq<string>, dirs: seq<Entry>): (r: seq<Frame>)
    requires forall e | e in dirs :: e.node.Directory?
    ensures |r| == |dirs|
    ensures forall i | 0 <= i < |r| :: r[i] == Frame(rel + [dirs[i].name], dirs[i].node.entries)
    ensures StackSize(r) == EntriesSize(dirs)
  {
    if dirs == [] then []
    else [Frame(rel + [dirs[0].name], dirs[0].node.entries)] + Descend(rel, dirs[1..])
  }

  function Children(f: Frame): (r: seq<Frame>)
    ensures StackSize(r) <= EntriesSize(f.entries)
  {
    SortKeepsSize(Subdirs(f.entries));
    SameMembers(Subdirs(f.entries), NameLeq);
    Descend(f.rel, Sort(Subdirs(f.entries), NameLeq))
  }

  lemma {:induction false} StackSizeAdds(a: seq<Frame>, b: seq<Frame>)
    ensures StackSize(a + b) == StackSize(a) + StackSize(b)
  {
    if a == [] {
      assert a + b == b;
    } else {
      StackSizeAdds(a[1..], b);
      assert (a + b)[1..] == a[1..] + b;
    }
  }

  /** A relative path as the listing shows it. */
  function Shown(path: seq<string>): string
    requires path != []
  {
    ForwardSlashes(Join(path))
  }

  predicate Skipped(h: Host, rel: seq<string>, e: Entry) {
    e.node.Link? || IsSensitivePath(Shown(rel + [e.name])) || !h.Inside(h.realpath(h.root + rel + [e.name]))
  }

  /** The files one directory contributes, in sorted order. */
  function FilesOf(h: Host, rel: seq<string>, names: seq<Entry>): seq<string> {
    if names == [] then []
    else (if Skipped(h, rel, names[0]) then [] else [Shown(rel + [names[0].name])]) + FilesOf(h, rel, names[1..])
  }

  /** Everything the walk would list, uncapped and in the order it meets the files. */
  function Walk(h: Host, stack: seq<Frame>): seq<string>
    decreases StackSize(stack)
  {
    if stack == [] then []
    else
      StackSizeAdds(Children(stack[0]), stack[1..]);
      FilesOf(h, stack[0].rel, Sort(Filenames(stack[0].entries), NameLeq)) + Walk(h, Children(stack[0]) + stack[1..])
  }

  function Chars(s: seq<string>): nat {
    if s == [] then 0 else Chars(s[..|s| - 1]) + |s[|s| - 1]| + 1
  }

  /** Both caps: the entry cap is looked at after each entry, so one entry always fits it. */
  predicate Within(s: seq<string>, maxEntries: int, maxTotalChars: int) {
    s == [] || ((|s| == 1 || |s| <= maxEntries) && Chars(s) <= maxTotalChars)
  }

  /** k is the length of the longest prefix of the walk within both caps. */
  predicate LongestWithin(walk: seq<string>, k: nat, maxEntries: int, maxTotalChars: int) {
    && k <= |walk| && Within(walk[..k], maxEntries, maxTotalChars)
    && (k < |walk| ==> !Within(walk[..k + 1], maxEntries, maxTotalChars))
  }

  lemma {:induction false} CharsGrow(walk: seq<string>, m: nat, n: nat)
    requires m <= n <= |walk|
    ensures Chars(walk[..m]) <= Chars(walk[..n])
  {
    if m < n {
      assert walk[..n][..n - 1] == walk[..n - 1];
      CharsGrow(walk, m, n - 1);
    }
  }

  /** Every shorter prefix stays within the caps too, so there is exactly one longest. */
  lemma LongestIsUnique(walk: seq<string>, j: nat, k: nat, maxEntries: int, maxTotalChars: int)
    requires LongestWithin(walk, j, maxEntries, maxTotalChars) && LongestWithin(walk, k, maxEntries, maxTotalChars)
    ensures j == k
  {
    if j < k {
      CharsGrow(walk, j + 1, k);
    } else if k < j {
      CharsGrow(walk, k + 1, j);
    }
  }

  predicate CutShort(walk: seq<string>, k: nat, maxEntries: int, maxTotalChars: int) {
    && LongestWithin(walk, k, maxEntries, maxTotalChars)
    && (k < |walk| || (k > 0 && k >= maxEntries))
  }

  /** The first k files of the walk, sorted; truncated when the walk goes on or the entry cap is reached. */
  predicate ListingEnds(walk: seq<string>, k: nat, maxEntries: int, maxTotalChars: int, results: seq<string>,
                        truncated: bool)
  {
    && LongestWithin(walk, k, maxEntries, maxTotalChars)
    && results == Sort(walk[..k], TextLeq)
    && (truncated <==> k < |walk| || (k > 0 && k >= maxEntries))
  }

  ghost predicate IsListing(h: Host, top: seq<Entry>, maxEntries: int, maxTotalChars: int, results: seq<string>,
                            truncated: bool)
  {
    exists k: nat :: ListingEnds(Walk(h, [Frame([], top)]), k, maxEntries, maxTotalChars, results, truncated)
  }

  lemma WalkStep(h: Host, stack: seq<Frame>)
    requires stack != []
    ensures StackSize(Children(stack[0]) + stack[1..]) < StackSize(stack)
    ensures Walk(h, stack) ==
            FilesOf(h, stack[0].rel, Sort(Filenames(stack[0].entries), NameLeq))
            + Walk(h, Children(stack[0]) + stack[1..])
  {
    StackSizeAdds(Children(stack[0]), stack[1..]);
  }

  /** The files of one directory, until a cap is hit. */
  method ListFiles(h: Host, rel: seq<string>, filenames: seq<Entry>, collected: seq<string>, chars: nat,
                   maxEntries: int, maxTotalChars: int, ghost rest: seq<string>)
    returns (results: seq<string>, totalChars: nat, truncated: bool)
    requires chars == Chars(collected) && Within(collected, maxEntries, maxTotalChars)
    requires collected == [] || |collected| < maxEntries
    ensures totalChars == Chars(results) && Within(results, maxEntries, maxTotalChars)
    ensures !truncated ==>
        results == collected + FilesOf(h, rel, filenames) && (results == [] || |results| < maxEntries)
    ensures truncated ==>
      var walk := collected + FilesOf(h, rel, filenames) + rest;
      results <= walk && CutShort(walk, |results|, maxEntries, maxTotalChars)
  {
    hide Skipped, Shown;
    results, totalChars, truncated := collected, chars, false;
    ghost var walk := collected + FilesOf(h, rel, filenames) + rest;
    assert filenames[0..] == filenames;
    for i := 0 to |filenames|
      invariant totalChars == Chars(results) && Within(results, maxEntries, maxTotalChars)
      invariant results + FilesOf(h, rel, filenames[i..]) == collected + FilesOf(h, rel, filenames)
      invariant results == [] || |results| < maxEntries
    {
      if Skipped(h, rel, filenames[i]) {
        continue;
      }
      var shown := Shown(rel + [filenames[i].name]);
      NextFile(h, rel, filenames, i, results, rest, walk);
      var projected := totalChars + |shown| + 1;
      if projected > maxTotalChars {
        truncated := true;
        return;
      }
      results := results + [shown];
      totalChars := projected;
      if |results| >= maxEntries {
        truncated := true;
        return;
      }
    }
  }

  /** The walk continues with the next file that is not skipped. */
  lemma NextFile(h: Host, rel: seq<string>, filenames: seq<Entry>, i: nat, results: seq<string>, rest: seq<string>,
                 walk: seq<string>)
    requires i < |filenames| && !Skipped(h, rel, filenames[i])
    requires walk == results + FilesOf(h, rel, filenames[i..]) + rest
    ensures var next := results + [Shown(rel + [filenames[i].name])];
      && results <= walk && next <= walk && |next| == |results| + 1
      && walk[..|results|] == results && walk[..|results| + 1] == next
      && next + FilesOf(h, rel, filenames[i + 1..]) == results + FilesOf(h, rel, filenames[i..])
      && Chars(next) == Chars(results) + |Shown(rel + [filenames[i].name])| + 1
      && (|next| < |walk| ==> walk[..|next| + 1][..|next|] == next)
  {
    hide Skipped, Shown;
    var shown := Shown(rel + [filenames[i].name]);
    assert filenames[i..][1..] == filenames[i + 1..];
    assert walk == results + [shown] + FilesOf(h, rel, filenames[i + 1..]) + rest;
    assert (results + [shown])[..|results|] == results;
  }

  method ListScopedTree(h: Host, top: Option<seq<Entry>>, maxEntries: int, maxTotalChars: int)
    returns (results: seq<string>, truncated: bool)
    ensures top == None ==> results == [] && !truncated
    ensures top.Some? ==>
      IsListing(h, top.value, maxEntries, maxTotalChars, results, truncated)
  {
    hide Walk, FilesOf, Within, Children, Chars, Sort;
    results, truncated := [], false;
    if top == None {
      return;
    }
    var stack := [Frame([], top.value)];
    ghost var walk := Walk(h, stack);
    var totalChars := 0;
    NothingYet(maxEntries, maxTotalChars);
    while stack != [] && !truncated
      invariant totalChars == Chars(results) && Within(results, maxEntries, maxTotalChars)
      invariant !truncated ==> walk == results + Walk(h, stack) && (results == [] || |results| < maxEntries)
      invariant truncated ==> results <= walk && CutShort(walk, |results|, maxEntries, maxTotalChars)
      decreases StackSize(stack), !truncated
    {
      var f := stack[0];
      WalkStep(h, stack);
      stack := Children(f) + stack[1..];
      var filenames := Sort(Filenames(f.entries), NameLeq);
      assert walk == results + FilesOf(h, f.rel, filenames) + Walk(h, stack);
      results, totalChars, truncated :=
        ListFiles(h, f.rel, filenames, results, totalChars, maxEntries, maxTotalChars, Walk(h, stack));
    }
    WalkOfNothing(h);
    assert walk[..|results|] == results;
    ghost var k := |results|;
    assert LongestWithin(walk, k, maxEntries, maxTotalChars);
    results := Sort(results, TextLeq);
    assert ListingEnds(walk, k, maxEntries, maxTotalChars, results, truncated);
  }

  lemma NothingYet(maxEntries: int, maxTotalChars: int)
    ensures Chars([]) == 0 && Within([], maxEntries, maxTotalChars)
  {
  }

  lemma WalkOfNothing(h: Host)
    ensures Walk(h, []) == []
  {
  }
}
