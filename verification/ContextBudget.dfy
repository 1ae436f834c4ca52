/**
 * Which files the architect is shown (model_executor.py): a fixed facade list, then the files the task
 * seems to be about, both cut to one shared budget. Reading and redacting a file is an arbitrary function.
 */
module ContextBudget {
  import opened Wrappers
  import opened Text
  import opened SensitivePath
  import opened Sorting

  const FACADE_MAX_FILES: nat := 6
  const PER_FILE_CAP: nat := 6000
  const TOTAL_CAP: nat := 18000
  const TASKFILE_MAX_FILES: nat := 3
  const TASKFILE_MIN_SCORE: nat := 2

  const SOURCE_EXTS: set<string> := {".py", ".js", ".ts", ".tsx", ".jsx", ".go", ".rs", ".java", ".rb"}

  const FACADE_CANDIDATES: seq<string> := [
    "README.md", "README.rst", "README.txt", "pyproject.toml", "setup.py", "setup.cfg", "requirements.txt",
    "package.json", "tsconfig.json", "Cargo.toml", "go.mod", "pom.xml", "build.gradle", "main.py", "app.py",
    "__main__.py", "src/main.py", "index.ts", "index.js", "src/index.ts", "src/index.js", "src/main.ts"
  ]

  /** One file as shown. */
  datatype Section = Section(path: string, content: string, truncated: bool)

  function Chars(sections: seq<Section>): nat {
    if sections == [] then 0 else Chars(sections[..|sections| - 1]) + |sections[|sections| - 1].content|
  }

  function Paths(sections: seq<Section>): set<string> {
    set s | s in sections :: s.path
  }

  /** The files among the first n paths that can be read. */
  function Readable(read: string -> Option<string>, paths: seq<string>, n: nat): seq<string>
    requires n <= |paths|
  {
    if n == 0 then []
    else Readable(read, paths, n - 1) + if read(paths[n - 1]).Some? then [paths[n - 1]] else []
  }

  /**
   * What showing files within a budget means: they are the first readable ones, each a prefix of its
   * file and no longer than the cap, cut only at the cap or where the budget ends, which it does only at the last.
   */
  ghost predicate Shows(read: string -> Option<string>, paths: seq<string>, slots: nat, room: nat,
                        sections: seq<Section>)
  {
    var all := Readable(read, paths, |paths|);
    && |sections| <= |all| && |sections| <= slots && Chars(sections) <= room
    && (forall k | 0 <= k < |sections| ::
          var full := read(sections[k].path);
          && sections[k].path == all[k] && full.Some?
          && sections[k].content <= full.value && |sections[k].content| <= PER_FILE_CAP
          && (sections[k].truncated <==> sections[k].content != full.value)
          && (sections[k].truncated && |sections[k].content| < PER_FILE_CAP ==>
                k == |sections| - 1 && Chars(sections) == room))
    && (|sections| < |all| && |sections| < slots ==> Chars(sections) == room)
  }

  predicate Fits(s: Section, full: string) {
    && s.content <= full && |s.content| <= PER_FILE_CAP
    && (s.truncated <==> s.content != full) && (s.truncated ==> |s.content| == PER_FILE_CAP)
  }

  /** Every readable file found so far is shown, cut only at the per-file cap. */
  ghost predicate SoFar(read: string -> Option<string>, found: seq<string>, sections: seq<Section>) {
    && |sections| == |found|
    && forall k | 0 <= k < |found| ::
         sections[k].path == found[k] && read(found[k]).Some? && Fits(sections[k], read(found[k]).value)
  }

  lemma SoFarGrows(read: string -> Option<string>, found: seq<string>, sections: seq<Section>, next: Section)
    requires SoFar(read, found, sections) && read(next.path).Some? && Fits(next, read(next.path).value)
    ensures SoFar(read, found + [next.path], sections + [next])
    ensures Chars(sections + [next]) == Chars(sections) + |next.content|
  {
    hide Fits;
    CharsGrow(sections, next);
  }

  lemma CharsGrow(sections: seq<Section>, next: Section)
    ensures Chars(sections + [next]) == Chars(sections) + |next.content|
  {
    assert (sections + [next])[..|sections|] == sections;
  }

  lemma Ends(read: string -> Option<string>, paths: seq<string>, found: seq<string>, slots: nat, room: nat,
             sections: seq<Section>)
    requires SoFar(read, found, sections) && found <= Readable(read, paths, |paths|)
    requires |sections| <= slots && Chars(sections) <= room
    requires |sections| == |Readable(read, paths, |paths|)| || |sections| == slots || Chars(sections) == room
    ensures Shows(read, paths, slots, room, sections)
  {
    hide Readable, Chars;
  }

  /** The budget ends inside a file. */
  lemma EndsCut(read: string -> Option<string>, paths: seq<string>, found: seq<string>, slots: nat, room: nat,
                sections: seq<Section>, last: Section)
    requires SoFar(read, found, sections) && found + [last.path] <= Readable(read, paths, |paths|)
    requires |sections| < slots && Chars(sections + [last]) == room
    requires read(last.path).Some? && last.content < read(last.path).value && |last.content| <= PER_FILE_CAP
        && last.truncated
    ensures Shows(read, paths, slots, room, sections + [last])
  {
    hide Readable, Chars;
    var all := Readable(read, paths, |paths|);
    forall k | 0 <= k < |found| ensures found[k] == all[k] {
      assert (found + [last.path])[k] == all[k];
    }
    assert (found + [last.path])[|found|] == all[|found|];
  }

  lemma NextReadable(read: string -> Option<string>, paths: seq<string>, i: nat)
    requires i < |paths|
    ensures read(paths[i]).Some? ==> Readable(read, paths, i + 1) == Readable(read, paths, i) + [paths[i]]
    ensures read(paths[i]) == None ==> Readable(read, paths, i + 1) == Readable(read, paths, i)
    ensures Readable(read, paths, i) <= Readable(read, paths, |paths|)
    ensures Readable(read, paths, i + 1) <= Readable(read, paths, |paths|)
  {
    ReadablePrefix(read, paths, i + 1, |paths|);
    ReadablePrefix(read, paths, i, i + 1);
  }

  /** The loop both blocks share: per-file cap, then what is left of the budget. */
  method Collect(read: string -> Option<string>, paths: seq<string>, slots: nat, room: nat)
    returns (sections: seq<Section>, budgetHit: bool)
    ensures Shows(read, paths, slots, room, sections)
    ensures budgetHit ==> Chars(sections) == room
  {
    hide Readable, Chars, Shows, SoFar;
    sections, budgetHit := [], false;
    var used := 0;
    NothingShown(read, paths);
    for i := 0 to |paths|
      invariant used == Chars(sections) <= room && |sections| <= slots && !budgetHit
      invariant SoFar(read, Readable(read, paths, i), sections)
    {
      NextReadable(read, paths, i);
      if |sections| >= slots {
        Ends(read, paths, Readable(read, paths, i), slots, room, sections);
        return;
      }
      var got := read(paths[i]);
      if got == None {
        continue;
      }
      var content, truncated := got.value, false;
      if |content| > PER_FILE_CAP {
        content, truncated := content[..PER_FILE_CAP], true;
      }
      var remaining := room - used;
      if remaining <= 0 {
        budgetHit := true;
        Ends(read, paths, Readable(read, paths, i), slots, room, sections);
        return;
      }
      if |content| > remaining {
        content, truncated, budgetHit := content[..remaining], true, true;
      }
      var next := Section(paths[i], content, truncated);
      CharsGrow(sections, next);
      if budgetHit {
        EndsCut(read, paths, Readable(read, paths, i), slots, room, sections, next);
      } else {
        SoFarGrows(read, Readable(read, paths, i), sections, next);
      }
      sections := sections + [next];
      used := used + |content|;
      if budgetHit {
        return;
      }
    }
    AllShown(read, Readable(read, paths, |paths|), sections);
    Ends(read, paths, Readable(read, paths, |paths|), slots, room, sections);
  }

  lemma NothingShown(read: string -> Option<string>, paths: seq<string>)
    ensures SoFar(read, Readable(read, paths, 0), []) && Chars([]) == 0
  {
  }

  lemma AllShown(read: string -> Option<string>, found: seq<string>, sections: seq<Section>)
    ensures SoFar(read, found, sections) ==> |sections| == |found|
  {
  }

  lemma {:induction false} ReadablePrefix(read: string -> Option<string>, paths: seq<string>, m: nat, n: nat)
    requires m <= n <= |paths|
    ensures Readable(read, paths, m) <= Readable(read, paths, n)
  {
    if m < n {
      ReadablePrefix(read, paths, m, n - 1);
    }
  }

  /** str.rfind(c), or -1. */
  function LastIndex(s: string, c: char): (i: int)
    ensures -1 <= i < |s|
    ensures i >= 0 ==> s[i] == c
    ensures forall k | i < k < |s| :: s[k] != c
  {
    if s == "" then -1 else if s[|s| - 1] == c then |s| - 1 else LastIndex(s[..|s| - 1], c)
  }

  /** os.path.splitext: the last dot of the name, unless only dots come before it. */
  function Splitext(s: string): (string, string) {
    var sep, dot := LastIndex(s, '/'), LastIndex(s, '.');
    if sep < dot && exists i | sep < i < dot :: s[i] != '.' then (s[..dot], s[dot..]) else (s, "")
  }

  predicate Contains(s: string, t: string) {
    exists i | 0 <= i <= |s| :: t <= s[i..]
  }

  /** A guess at the class a module defines, lowered: its name without separators. */
  function SymbolGuess(stem: string): string {
    if stem == "" then ""
    else (if stem[0] == '_' || stem[0] == '-' then "" else [stem[0]]) + SymbolGuess(stem[1..])
  }

  /** The three hits on a file's name, and the weaker one on the guessed symbol. */
  datatype Signals = Signals(basename: bool, stem: bool, parent: bool, symbol: bool)

  function SignalsOf(path: string, signal: string): Signals {
    var posix := ForwardSlashes(path);
    var basename := posix[LastIndex(posix, '/') + 1..];
    var stem, parent := Splitext(basename).0, Splitext(posix).0;
    Signals(Contains(signal, Lower(basename)),
            |stem| >= 3 && Contains(signal, Lower(stem)),
            Lower(parent) != Lower(stem) && Contains(signal, Lower(parent)),
            |SymbolGuess(stem)| >= 3 && Contains(signal, Lower(SymbolGuess(stem))))
  }

  lemma LastIndexIs(s: string, c: char, i: int)
    requires -1 <= i < |s| && (i >= 0 ==> s[i] == c) && forall k | i < k < |s| :: s[k] != c
    ensures LastIndex(s, c) == i
  {
    hide LastIndex;
  }

  lemma LastSlash(dir: string, name: string)
    requires '/' !in name && (dir == "" || dir[|dir| - 1] == '/')
    ensures LastIndex(dir + name, '/') == |dir| - 1
  {
    if name == "" && dir == "" {
      assert LastIndex(dir + name, '/') == -1;
    } else {
      LastIndexIs(dir + name, '/', |dir| - 1);
    }
  }

  /** A name with one extension splits there, as long as something but dots comes before it. */
  lemma SplitsAtExtension(dir: string, stem: string, ext: string)
    requires '/' !in stem && '/' !in ext && '.' !in ext && exists i | 0 <= i < |stem| :: stem[i] != '.'
    requires dir == "" || dir[|dir| - 1] == '/'
    ensures Splitext(dir + (stem + "." + ext)) == (dir + stem, "." + ext)
  {
    hide LastIndex;
    var s := dir + (stem + "." + ext);
    var dot := |dir| + |stem|;
    LastIndexIs(s, '.', dot);
    LastSlash(dir, stem + "." + ext);
    var i :| 0 <= i < |stem| && stem[i] != '.';
    assert s[|dir| + i] != '.';
    assert s[..dot] == dir + stem && s[dot..] == "." + ext;
  }

  lemma PlainStays(s: string)
    requires '\\' !in s
    ensures ForwardSlashes(s) == s
  {
    hide ForwardSlashes;
    forall k | 0 <= k < |s|
      ensures s[k] != '\\'
    {
      assert s[k] in s;
    }
  }

  /** The signals of a path, taken apart by hand: its name, the name without extension, and the whole without it. */
  lemma SignalsOfName(dir: string, stem: string, ext: string, signal: string)
    requires '/' !in stem && '/' !in ext && '.' !in ext && exists i | 0 <= i < |stem| :: stem[i] != '.'
    requires (dir == "" || dir[|dir| - 1] == '/') && '\\' !in dir + (stem + "." + ext)
    ensures var g := SignalsOf(dir + (stem + "." + ext), signal);
      && (g.basename <==> Contains(signal, Lower(stem + "." + ext)))
      && (g.stem <==> |stem| >= 3 && Contains(signal, Lower(stem)))
      && (g.parent <==> dir != "" && Contains(signal, Lower(dir + stem)))
      && (g.symbol <==> |SymbolGuess(stem)| >= 3 && Contains(signal, Lower(SymbolGuess(stem))))
  {
    hide Contains, Lower, Splitext, SymbolGuess, LastIndex, ForwardSlashes;
    var name := stem + "." + ext;
    PlainStays(dir + name);
    LastSlash(dir, name);
    assert (dir + name)[|dir|..] == name;
    SplitsAtExtension(dir, stem, ext);
    SplitsAtExtension("", stem, ext);
    assert "" + name == name && "" + stem == stem;
    assert dir == "" ==> dir + stem == stem;
    assert |Lower(dir + stem)| == |dir| + |stem| && |Lower(stem)| == |stem|;
  }

  function Score(g: Signals): nat {
    (if g.basename then 3 else 0) + (if g.stem then 2 else 0) + (if g.parent then 2 else 0)
    + (if g.symbol then 1 else 0)
  }

  datatype Scored = Scored(score: nat, path: string)

  /** score descending, then the shorter path, then alphabetical. */
  predicate RankLeq(a: Scored, b: Scored) {
    || a.score > b.score
    || (a.score == b.score && |a.path| < |b.path|)
    || (a.score == b.score && |a.path| == |b.path| && TextLeq(a.path, b.path))
  }

  lemma RankOrder()
    ensures TotalOrder(RankLeq)
  {
    TextOrder();
  }

  /** A path is considered when it is source code not shown already, and kept on a filename-level hit. */
  predicate Matches(path: string, signal: string, already: set<string>) {
    && path !in already && Lower(Splitext(path).1) in SOURCE_EXTS
    && (var g := SignalsOf(path, signal); g.basename || g.stem || g.parent)
  }

  /** The threshold asks for a hit on the name: the symbol guess alone never selects a file. */
  lemma ThresholdMeansNameHit(g: Signals)
    ensures Score(g) >= TASKFILE_MIN_SCORE <==> g.basename || g.stem || g.parent
  {
  }

  method ScorePaths(paths: seq<string>, signal: string, already: set<string>) returns (scored: seq<Scored>)
    ensures forall x :: x in scored <==>
      x.path in paths && Matches(x.path, signal, already) && x.score == Score(SignalsOf(x.path, signal))
  {
    hide SignalsOf, Splitext;
    scored := [];
    for i := 0 to |paths|
      invariant forall x :: x in scored <==>
        x.path in paths[..i] && Matches(x.path, signal, already) && x.score == Score(SignalsOf(x.path, signal))
    {
      var p := paths[i];
      assert paths[..i + 1] == paths[..i] + [p];
      if p in already {
        continue;
      }
      if Lower(Splitext(p).1) !in SOURCE_EXTS {
        continue;
      }
      var score := Score(SignalsOf(p, signal));
      ThresholdMeansNameHit(SignalsOf(p, signal));
      if score >= TASKFILE_MIN_SCORE {
        scored := scored + [Scored(score, p)];
      }
    }
    assert paths[..|paths|] == paths;
  }

  function TopPaths(ranked: seq<Scored>): (top: seq<string>)
    ensures |top| == if |ranked| < TASKFILE_MAX_FILES then |ranked| else TASKFILE_MAX_FILES
    ensures forall k | 0 <= k < |top| :: top[k] == ranked[k].path
  {
    var n := if |ranked| < TASKFILE_MAX_FILES then |ranked| else TASKFILE_MAX_FILES;
    seq(n, k requires 0 <= k < n => ranked[k].path)
  }

  /** The rank of a path for a signal. */
  function RankOf(path: string, signal: string): Scored {
    Scored(Score(SignalsOf(path, signal)), path)
  }

  /** The best matching paths: no matching path left out ranks strictly before one that is in. */
  ghost predicate BestMatches(paths: seq<string>, signal: string, already: set<string>, selected: seq<string>) {
    && |selected| <= TASKFILE_MAX_FILES
    && (forall p | p in selected :: p in paths && Matches(p, signal, already))
    && (forall i, j | 0 <= i < j < |selected| :: RankLeq(RankOf(selected[i], signal), RankOf(selected[j], signal)))
    && (forall p | p in paths && Matches(p, signal, already) && p !in selected ::
          && |selected| == TASKFILE_MAX_FILES
          && forall q | q in selected :: RankLeq(RankOf(q, signal), RankOf(p, signal)))
  }

  /** The scored list holds exactly the matching paths, each with its rank. */
  ghost predicate Holds(scored: seq<Scored>, paths: seq<string>, signal: string, already: set<string>) {
    forall x :: x in scored <==> x.path in paths && Matches(x.path, signal, already) && x == RankOf(x.path, signal)
  }

  lemma TopAreBest(paths: seq<string>, signal: string, already: set<string>, ranked: seq<Scored>)
    requires Holds(ranked, paths, signal, already) && Ascending(ranked, RankLeq)
    ensures BestMatches(paths, signal, already, TopPaths(ranked))
  {
    hide Matches, RankLeq, RankOf;
    var selected := TopPaths(ranked);
    forall k | 0 <= k < |ranked|
      ensures ranked[k] == RankOf(ranked[k].path, signal) && ranked[k].path in paths
      ensures Matches(ranked[k].path, signal, already)
    {
      assert ranked[k] in ranked;
    }
    forall p | p in paths && Matches(p, signal, already) && p !in selected
      ensures |selected| == TASKFILE_MAX_FILES && forall q | q in selected ::
          RankLeq(RankOf(q, signal), RankOf(p, signal))
    {
      RankKeepsPath(p, signal);
      var j :| 0 <= j < |ranked| && ranked[j] == RankOf(p, signal);
    }
  }

  lemma RankKeepsPath(p: string, signal: string)
    ensures RankOf(p, signal).path == p
  {
  }

  method SelectTaskfiles(paths: seq<string>, signal: string, already: set<string>) returns (selected: seq<string>)
    ensures BestMatches(paths, signal, already, selected)
  {
    hide Matches, SignalsOf, Score, RankLeq, Sort, BestMatches;
    var scored := ScorePaths(paths, signal, already);
    var ranked := Sort(scored, RankLeq);
    RankOrder();
    SortIsAscending(scored, RankLeq);
    SameMembers(scored, RankLeq);
    TopAreBest(paths, signal, already, ranked);
    selected := TopPaths(ranked);
  }

  /** The facade block and the task-file block of one architect prompt. */
  method ArchitectFiles(read: string -> Option<string>, paths: seq<string>, signal: string)
    returns (facade: seq<Section>, selected: seq<string>, taskfiles: seq<Section>)
    ensures Shows(read, FACADE_CANDIDATES, FACADE_MAX_FILES, TOTAL_CAP, facade)
    ensures IsBlank(signal) ==> selected == []
    ensures !IsBlank(signal) ==> BestMatches(paths, signal, Paths(facade), selected)
    ensures Shows(read, selected, TASKFILE_MAX_FILES, TOTAL_CAP - Chars(facade), taskfiles)
  {
    hide BestMatches;
    var hit;
    facade, hit := Collect(read, FACADE_CANDIDATES, FACADE_MAX_FILES, TOTAL_CAP);
    selected, taskfiles := [], [];
    if !IsBlank(signal) {
      selected := SelectTaskfiles(paths, signal, Paths(facade));
    }
    taskfiles, hit := Collect(read, selected, TASKFILE_MAX_FILES, TOTAL_CAP - Chars(facade));
  }

  /**
   * Over any facade list, files and signal: one budget for both blocks, a cap on every file, and no file shown
   * twice.
   */
  lemma SharedBudget(read: string -> Option<string>, candidates: seq<string>, paths: seq<string>, signal: string,
                     facade: seq<Section>, selected: seq<string>, taskfiles: seq<Section>)
    requires Shows(read, candidates, FACADE_MAX_FILES, TOTAL_CAP, facade)
    requires BestMatches(paths, signal, Paths(facade), selected)
    requires Shows(read, selected, TASKFILE_MAX_FILES, TOTAL_CAP - Chars(facade), taskfiles)
    ensures Chars(facade) + Chars(taskfiles) <= TOTAL_CAP
    ensures forall s | s in facade + taskfiles :: |s.content| <= PER_FILE_CAP
    ensures |facade| <= 6 && |taskfiles| <= 3 && Paths(facade) !! Paths(taskfiles)
  {
    hide BestMatches, Shows, Chars;
    ShownWithin(read, candidates, FACADE_MAX_FILES, TOTAL_CAP, facade);
    ShownWithin(read, selected, TASKFILE_MAX_FILES, TOTAL_CAP - Chars(facade), taskfiles);
    Apart(paths, signal, facade, selected, taskfiles);
  }

  lemma Apart(paths: seq<string>, signal: string, facade: seq<Section>, selected: seq<string>, taskfiles: seq<Section>)
    requires BestMatches(paths, signal, Paths(facade), selected)
    requires forall s | s in taskfiles :: s.path in selected
    ensures Paths(facade) !! Paths(taskfiles)
  {
    hide BestMatches;
    forall p | p in selected ensures p !in Paths(facade) {
      SelectedIsNew(paths, signal, Paths(facade), selected, p);
    }
  }

  lemma ShownWithin(read: string -> Option<string>, paths: seq<string>, slots: nat, room: nat, sections: seq<Section>)
    requires Shows(read, paths, slots, room, sections)
    ensures Chars(sections) <= room && |sections| <= slots
    ensures forall s | s in sections :: |s.content| <= PER_FILE_CAP && s.path in paths
  {
    hide Readable, Chars;
    forall s | s in sections ensures |s.content| <= PER_FILE_CAP && s.path in paths {
      var k :| 0 <= k < |sections| && sections[k] == s;
      ReadableMembers(read, paths, |paths|, s.path);
    }
  }

  lemma SelectedIsNew(paths: seq<string>, signal: string, already: set<string>, selected: seq<string>, p: string)
    requires BestMatches(paths, signal, already, selected) && p in selected
    ensures p !in already
  {
    hide RankLeq, RankOf;
    MatchIsNew(p, signal, already);
  }

  lemma MatchIsNew(p: string, signal: string, already: set<string>)
    requires Matches(p, signal, already)
    ensures p !in already
  {
  }

  lemma {:induction false} ReadableMembers(read: string -> Option<string>, paths: seq<string>, n: nat, p: string)
    requires n <= |paths| && p in Readable(read, paths, n)
    ensures p in paths && read(p).Some?
  {
    if p in Readable(read, paths, n - 1) {
      ReadableMembers(read, paths, n - 1, p);
    }
  }
}
