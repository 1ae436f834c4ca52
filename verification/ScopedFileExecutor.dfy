/**
 * The real run: file actions applied fail-fast with in-memory backups (scoped_file_executor.py).
 * I/O that may fail is decided by an arbitrary oracle, one answer per action.
 */
module ScopedFileExecutor {
  import opened Wrappers
  import opened Text
  import opened SensitivePath
  import opened Workspace
  import opened ScopedCommandExecutor

  /** One entry of proposed_files; a missing or non-string field is None. */
  datatype Proposed = Proposed(path: Option<string>, operation: Option<string>,
                               action: Option<string>, content: Option<string>)

  datatype FileError =
    | InvalidPath | Sensitive | SymlinkTarget | EscapesWorkspace
    | ParentMissing | ParentNotCreated | ParentOutside | ParentEscapes
    | AlreadyExists | TargetMissing | InvalidContent | BackupUnreadable | WriteFailed

  datatype SkipReason = OperationNotAllowed | StoppedEarlier

  datatype Status = Success | Failed(error: FileError) | Skipped(reason: SkipReason)

  datatype FileResult = FileResult(path: string, operation: string, status: Status,
                                   before: Option<Content>, after: Option<Content>)

  /** A row of execution_file_backups: the original as read in text mode, and the digest of its bytes. */
  datatype Backup = Backup(path: string, original: string, digest: Content)

  /** Which I/O calls of one action succeed. */
  datatype Io = Io(mkdirOk: bool, readOk: bool, writeOk: bool)

  /** How a run is set up: the host, the parent-directory policy, and the I/O of each action. */
  datatype Setup = Setup(host: Host, strictParent: bool, io: nat -> Io)

  function PathOf(f: Proposed): string {
    f.path.GetOr("")
  }

  /** `operation`, else `action`, else empty; an empty string counts as absent. */
  function OperationOf(f: Proposed): string {
    if f.operation.GetOr("") != "" then f.operation.value else f.action.GetOr("")
  }

  predicate Allowed(operation: string) {
    operation == "create" || operation == "modify"
  }

  /** What one action does: the disk after it, its result, and the backup it leaves, if any. */
  datatype Effect = Effect(disk: Disk, result: FileResult, backup: Option<Backup>)

  /** Checks a to e: everything that is decided before the disk is looked at. */
  function PathRefusal(h: Host, path: string): Option<FileError> {
    if !h.ValidFilePath(path) then Some(InvalidPath)
    else if IsSensitivePath(path) then Some(Sensitive)
    else if h.IsLink(path) then Some(SymlinkTarget)
    else if !h.Inside(h.Key(path)) then Some(EscapesWorkspace)
    else None
  }

  /** Check f: the parent directory must exist, or may be created when the policy is relaxed. */
  function ParentRefusal(h: Host, strictParent: bool, io: Io, d: Disk, path: string): Option<FileError> {
    var parent := h.Parent(path);
    if parent in d.dirs then None
    else if strictParent then Some(ParentMissing)
    else if !h.InsideOrRoot(parent) then Some(ParentOutside)
    else if !io.mkdirOk || (exists a | a in Ancestors(parent) :: a in d.files) then Some(ParentNotCreated)
    else None
  }

  function WithParent(h: Host, d: Disk, path: string): Disk {
    if h.Parent(path) in d.dirs then d else d.(dirs := d.dirs + Ancestors(h.Parent(path)))
  }

  /** Checks g to i. */
  function TargetRefusal(h: Host, d: Disk, operation: string, path: string,
                         content: Option<string>): Option<FileError>
  {
    if !h.InsideOrRoot(h.Parent(path)) then Some(ParentEscapes)
    else if operation == "create" && d.Exists(h.Key(path)) then Some(AlreadyExists)
    else if operation == "modify" && !d.Exists(h.Key(path)) then Some(TargetMissing)
    else if content == None then Some(InvalidContent)
    else None
  }

  function Step(s: Setup, i: nat, d: Disk, f: Proposed): Effect {
    var path, operation, io, h := PathOf(f), OperationOf(f), s.io(i), s.host;
    var key := h.Key(path);
    var blank := FileResult(path, operation, Success, None, None);
    if !Allowed(operation) then Effect(d, blank.(status := Skipped(OperationNotAllowed)), None)
    else if PathRefusal(h, path).Some? then Effect(d, blank.(status := Failed(PathRefusal(h, path).value)), None)
    else
      var noParent := ParentRefusal(h, s.strictParent, io, d, path);
      if noParent.Some? then Effect(d, blank.(status := Failed(noParent.value)), None)
      else
        var d1 := WithParent(h, d, path);
        var refusal := TargetRefusal(h, d1, operation, path, f.content);
        if refusal.Some? then Effect(d1, blank.(status := Failed(refusal.value)), None)
        else
          Write(io, d1, key,
                blank.(before := if operation == "modify" && key in d1.files then Some(d1.files[key]) else None),
                f.content.value)
  }

  /** The backup and the atomic write; an action that got this far has passed every check. */
  function Write(io: Io, d: Disk, key: Path, entry: FileResult, content: string): Effect {
    if entry.operation == "modify" && (!io.readOk || key !in d.files || d.files[key].Binary?) then
      Effect(d, entry.(status := Failed(BackupUnreadable)), None)
    else
      var backup := if entry.operation == "modify"
                    then Some(Backup(entry.path, UniversalNewlines(d.files[key].text), d.files[key]))
                    else None;
      if !io.writeOk then Effect(d, entry.(status := Failed(WriteFailed)), backup)
      else Effect(d.(files := d.files[key := Utf8(content)]), entry.(after := Some(Utf8(content))), backup)
  }

  // ---------------------------------------------------------------- what an action owes its caller

  /** The path of an entry, and its operation: `operation` if it is there and not empty, else `action`. */
  function Named(f: Proposed): (string, string) {
    (match f.path case Some(p) => p case None => "",
     match (f.operation, f.action)
     case (Some(o), a) => if |o| > 0 then o else if a.Some? then a.value else ""
     case (None, Some(a)) => a
     case (None, None) => "")
  }

  /** Where a raw path leads, and the directory it leads through. */
  function Target(h: Host, path: string): (Path, Path, Path) {
    var full := Resolve(h.root, Split(path));
    (full, h.realpath(full), h.realpath(if full == [] then [] else full[..|full| - 1]))
  }

  predicate Below(h: Host, p: Path) {
    h.root != [] && h.root <= p && p != h.root
  }

  /** The directories once the parent has been made. */
  function DirsWith(d: Disk, parent: Path): set<Path> {
    if parent in d.dirs then d.dirs else d.dirs + set n | 0 <= n <= |parent| :: parent[..n]
  }

  /** What has to hold of a path so that it is not refused with this error. */
  predicate PathPasses(h: Host, path: string, e: FileError) {
    var (full, key, _) := Target(h, path);
    match e
    case InvalidPath =>
      && (exists c | c in path :: c !in {' ', '\t', '\n', '\r', '\U{000B}', '\U{000C}'})
      && path[0] != '/' && Below(h, key)
    case Sensitive =>
      forall part | part in Split(ForwardSlashes(path)) ::
        && !(".env" <= part)
        && part !in {".env", ".git", ".venv", "node_modules", "dist", "build", "__pycache__"}
    case SymlinkTarget => full !in h.links
    case EscapesWorkspace => Below(h, key)
    case _ => true
  }

  /** What has to hold so that the action does not fail with this error. */
  predicate Passes(s: Setup, i: nat, d: Disk, f: Proposed, e: FileError) {
    var (path, operation) := Named(f);
    var (_, key, parent) := Target(s.host, path);
    var dirs := DirsWith(d, parent);
    match e
    case InvalidPath => PathPasses(s.host, path, e)
    case Sensitive => PathPasses(s.host, path, e)
    case SymlinkTarget => PathPasses(s.host, path, e)
    case EscapesWorkspace => PathPasses(s.host, path, e)
    case ParentMissing => parent in d.dirs || !s.strictParent
    case ParentOutside => parent in d.dirs || parent == s.host.root || Below(s.host, parent)
    case ParentNotCreated =>
      parent in d.dirs || (s.io(i).mkdirOk && forall n | 0 <= n <= |parent| :: parent[..n] !in d.files)
    case ParentEscapes => parent == s.host.root || Below(s.host, parent)
    case AlreadyExists => operation == "create" ==> key !in d.files && key !in dirs
    case TargetMissing => operation == "modify" ==> key in d.files || key in dirs
    case InvalidContent => f.content != None
    case BackupUnreadable => operation == "modify" ==> s.io(i).readOk && key in d.files && d.files[key].Utf8?
    case WriteFailed => s.io(i).writeOk
  }

  /** The place of each check in the order they are made. */
  function CheckOrder(e: FileError): nat {
    match e
    case InvalidPath => 0
    case Sensitive => 1
    case SymlinkTarget => 2
    case EscapesWorkspace => 3
    case ParentMissing => 4
    case ParentOutside => 5
    case ParentNotCreated => 6
    case ParentEscapes => 7
    case AlreadyExists => 8
    case TargetMissing => 9
    case InvalidContent => 10
    case BackupUnreadable => 11
    case WriteFailed => 12
  }

  /** Every check before the n-th passes. */
  ghost predicate PassesBefore(s: Setup, i: nat, d: Disk, f: Proposed, n: nat) {
    forall e | CheckOrder(e) < n :: Passes(s, i, d, f, e)
  }

  /** The first check that does not pass. */
  ghost predicate StopsAt(s: Setup, i: nat, d: Disk, f: Proposed, e: FileError) {
    !Passes(s, i, d, f, e) && PassesBefore(s, i, d, f, CheckOrder(e))
  }

  /**
   * The contract of one action: it succeeds exactly when every check passes, and else reports the first
   * that does not; a success writes the content at the resolved path and nothing else, a failure writes no
   * file; and the original is backed up once everything but the write is in order.
   */
  ghost predicate Outcome(s: Setup, i: nat, d: Disk, f: Proposed, next: Disk, entry: FileResult,
                          backup: Option<Backup>)
  {
    var (path, operation) := Named(f);
    var (_, key, parent) := Target(s.host, path);
    var allowed := operation == "create" || operation == "modify";
    && entry.path == path && entry.operation == operation
    && (!allowed <==> entry.status == Skipped(OperationNotAllowed)) && entry.status != Skipped(StoppedEarlier)
    && (entry.status == Success <==> allowed && PassesBefore(s, i, d, f, 13))
    && (forall e :: entry.status == Failed(e) <==> allowed && StopsAt(s, i, d, f, e))
    && next.dirs == (if allowed && PassesBefore(s, i, d, f, 7) then DirsWith(d, parent) else d.dirs)
    && next.files == (if entry.status == Success then d.files[key := Utf8(f.content.GetOr(""))] else d.files)
    && (entry.status == Success ==>
          && entry.after == Some(Utf8(f.content.GetOr("")))
          && entry.before == if operation == "modify" && key in d.files then Some(d.files[key]) else None)
    && (backup.Some? <==> operation == "modify" && PassesBefore(s, i, d, f, 12))
    && (backup.Some? ==>
          && key in d.files && d.files[key].Utf8?
          && backup.value == Backup(path, UniversalNewlines(d.files[key].text), d.files[key]))
  }

  lemma NamedAgrees(f: Proposed)
    ensures Named(f) == (PathOf(f), OperationOf(f))
  {
  }

  lemma TargetAgrees(h: Host, path: string)
    ensures Target(h, path) == (h.Full(path), h.Key(path), h.Parent(path))
  {
  }

  /** The path checks, one by one. */
  lemma PathLaws(h: Host, path: string)
    ensures PathPasses(h, path, InvalidPath) <==> h.ValidFilePath(path)
    ensures PathPasses(h, path, Sensitive) <==> !IsSensitivePath(path)
    ensures PathPasses(h, path, SymlinkTarget) <==> !h.IsLink(path)
    ensures PathPasses(h, path, EscapesWorkspace) <==> h.Inside(h.Key(path))
  {
    hide IsSensitivePath, Target;
    TargetAgrees(h, path);
    NoDeniedName(path);
  }

  lemma PathChecks(s: Setup, i: nat, d: Disk, f: Proposed)
    ensures var h, path := s.host, PathOf(f);
      && (Passes(s, i, d, f, InvalidPath) <==> h.ValidFilePath(path))
      && (Passes(s, i, d, f, Sensitive) <==> !IsSensitivePath(path))
      && (Passes(s, i, d, f, SymlinkTarget) <==> !h.IsLink(path))
      && (Passes(s, i, d, f, EscapesWorkspace) <==> h.Inside(h.Key(path)))
  {
    hide IsSensitivePath, Named, PathPasses;
    NamedAgrees(f);
    PathLaws(s.host, PathOf(f));
  }

  lemma NoDeniedName(path: string)
    ensures !IsSensitivePath(path) <==>
      forall part | part in Split(ForwardSlashes(path)) ::
        && !(".env" <= part)
        && part !in {".env", ".git", ".venv", "node_modules", "dist", "build", "__pycache__"}
  {
    hide IsSensitivePath, SensitiveComponent, Split;
    SensitiveIffComponent(path);
    forall part | part in Split(ForwardSlashes(path)) {
      DeniedNames(part);
    }
  }

  lemma DeniedNames(part: string)
    ensures SensitiveComponent(part) <==>
            ".env" <= part || part in {".env", ".git", ".venv", "node_modules", "dist", "build", "__pycache__"}
  {
  }

  lemma ParentChecks(s: Setup, i: nat, d: Disk, f: Proposed)
    ensures var h, parent := s.host, s.host.Parent(PathOf(f));
      && (Passes(s, i, d, f, ParentMissing) <==> parent in d.dirs || !s.strictParent)
      && (Passes(s, i, d, f, ParentOutside) <==> parent in d.dirs || h.InsideOrRoot(parent))
      && (Passes(s, i, d, f, ParentNotCreated) <==>
            parent in d.dirs || (s.io(i).mkdirOk && !exists a | a in Ancestors(parent) :: a in d.files))
      && (Passes(s, i, d, f, ParentEscapes) <==> h.InsideOrRoot(parent))
      && DirsWith(d, parent) == WithParent(h, d, PathOf(f)).dirs
  {
    hide Named, Target;
    NamedAgrees(f);
    TargetAgrees(s.host, PathOf(f));
    var parent := s.host.Parent(PathOf(f));
    forall n | 0 <= n <= |parent| ensures parent[..n] in Ancestors(parent) {
    }
  }

  lemma TargetChecks(s: Setup, i: nat, d: Disk, f: Proposed)
    ensures var key, operation := s.host.Key(PathOf(f)), OperationOf(f);
      var d1 := WithParent(s.host, d, PathOf(f));
      && d1.files == d.files
      && (Passes(s, i, d, f, AlreadyExists) <==> (operation == "create" ==> !d1.Exists(key)))
      && (Passes(s, i, d, f, TargetMissing) <==> (operation == "modify" ==> d1.Exists(key)))
      && (Passes(s, i, d, f, InvalidContent) <==> f.content != None)
      && (Passes(s, i, d, f, BackupUnreadable) <==>
            (operation == "modify" ==> s.io(i).readOk && key in d.files && d.files[key].Utf8?))
      && (Passes(s, i, d, f, WriteFailed) <==> s.io(i).writeOk)
  {
    hide Named, Target, DirsWith, WithParent;
    NamedAgrees(f);
    TargetAgrees(s.host, PathOf(f));
    ParentChecks(s, i, d, f);
    ParentKeepsFiles(s.host, d, PathOf(f));
  }

  lemma ParentKeepsFiles(h: Host, d: Disk, path: string)
    ensures WithParent(h, d, path).files == d.files
  {
  }

  /** The checks, one after the other. */
  lemma ChecksInOrder(s: Setup, i: nat, d: Disk, f: Proposed, e: FileError)
    ensures PassesBefore(s, i, d, f, 0)
    ensures PassesBefore(s, i, d, f, CheckOrder(e) + 1) <==>
            PassesBefore(s, i, d, f, CheckOrder(e)) && Passes(s, i, d, f, e)
  {
    hide Passes;
  }

  lemma PassesFewer(s: Setup, i: nat, d: Disk, f: Proposed, m: nat, n: nat)
    requires m <= n && PassesBefore(s, i, d, f, n)
    ensures PassesBefore(s, i, d, f, m)
  {
    hide Passes;
  }

  lemma StopsOnce(s: Setup, i: nat, d: Disk, f: Proposed, e: FileError)
    requires StopsAt(s, i, d, f, e)
    ensures forall n | CheckOrder(e) < n :: !PassesBefore(s, i, d, f, n)
    ensures forall n: nat | n <= CheckOrder(e) :: PassesBefore(s, i, d, f, n)
    ensures forall x :: StopsAt(s, i, d, f, x) <==> x == e
  {
    hide Passes;
    forall x | StopsAt(s, i, d, f, x) ensures x == e {
      assert CheckOrder(x) == CheckOrder(e);
    }
  }

  /** How far the step gets. */
  lemma StepVerdict(s: Setup, i: nat, d: Disk, f: Proposed)
    ensures var st := Step(s, i, d, f).result.status;
      && (Allowed(OperationOf(f)) ==> st == Success || st.Failed?)
      && (st.Failed? ==> Allowed(OperationOf(f)) && StopsAt(s, i, d, f, st.error))
      && (st == Success ==> Allowed(OperationOf(f)) && PassesBefore(s, i, d, f, 13))
  {
    hide Passes, PassesBefore, IsSensitivePath, UniversalNewlines, Resolve, WithParent;
    PathChecks(s, i, d, f);
    ParentChecks(s, i, d, f);
    TargetChecks(s, i, d, f);
    forall e {
      ChecksInOrder(s, i, d, f, e);
    }
    assert CheckOrder(InvalidPath) == 0 && CheckOrder(Sensitive) == 1 && CheckOrder(SymlinkTarget) == 2;
    assert CheckOrder(EscapesWorkspace) == 3 && CheckOrder(ParentMissing) == 4 && CheckOrder(ParentOutside) == 5;
    assert CheckOrder(ParentNotCreated) == 6 && CheckOrder(ParentEscapes) == 7 && CheckOrder(AlreadyExists) == 8;
    assert CheckOrder(TargetMissing) == 9 && CheckOrder(InvalidContent) == 10 && CheckOrder(BackupUnreadable) == 11;
    assert CheckOrder(WriteFailed) == 12;
  }

  /** What the step leaves on the disk, and when it backs up. */
  lemma RefusalsInOrder(s: Setup, i: nat, d: Disk, f: Proposed)
    ensures var h, path := s.host, PathOf(f);
      var early, parent := PathRefusal(h, path), ParentRefusal(h, s.strictParent, s.io(i), d, path);
      var late := TargetRefusal(h, WithParent(h, d, path), OperationOf(f), path, f.content);
      && (early.Some? ==> CheckOrder(early.value) <= 6) && (parent.Some? ==> CheckOrder(parent.value) <= 6)
      && (late.Some? ==> CheckOrder(late.value) > 6 && late.value != WriteFailed)
      && (late == None ==> f.content.Some?)
  {
    hide IsSensitivePath, Resolve;
  }

  lemma StepLeaves(s: Setup, i: nat, d: Disk, f: Proposed)
    ensures var e, path, operation := Step(s, i, d, f), PathOf(f), OperationOf(f); var key := s.host.Key(path);
      && e.result.path == path && e.result.operation == operation
      && (e.result.status == Skipped(OperationNotAllowed) <==> !Allowed(operation))
      && e.result.status != Skipped(StoppedEarlier)
      && e.disk.files == (if e.result.status == Success then d.files[key := Utf8(f.content.GetOr(""))] else d.files)
      && e.disk.dirs == (if e.result.status == Success
                            || (e.result.status.Failed? && CheckOrder(e.result.status.error) > 6)
                         then WithParent(s.host, d, path).dirs else d.dirs)
      && (e.result.status == Success ==>
            && e.result.after == Some(Utf8(f.content.GetOr("")))
            && e.result.before == if operation == "modify" && key in d.files then Some(d.files[key]) else None)
      && (e.backup.Some? <==>
            operation == "modify" && (e.result.status == Success || e.result.status == Failed(WriteFailed)))
      && (e.backup.Some? ==>
            && key in d.files && d.files[key].Utf8?
            && e.backup.value == Backup(path, UniversalNewlines(d.files[key].text), d.files[key]))
  {
    RefusalsInOrder(s, i, d, f);
    hide PathRefusal, ParentRefusal, TargetRefusal, UniversalNewlines, Resolve;
  }

  /** The step meets the contract. */
  lemma StepOutcome(s: Setup, i: nat, d: Disk, f: Proposed)
    ensures var e := Step(s, i, d, f); Outcome(s, i, d, f, e.disk, e.result, e.backup)
  {
    hide Step, Passes, PassesBefore, StopsAt, Named, Target, DirsWith, WithParent, UniversalNewlines, Resolve;
    NamedAgrees(f);
    TargetAgrees(s.host, PathOf(f));
    ParentChecks(s, i, d, f);
    StepVerdict(s, i, d, f);
    StepLeaves(s, i, d, f);
    var st := Step(s, i, d, f).result.status;
    if st.Failed? {
      StopsOnce(s, i, d, f, st.error);
    } else if st == Success {
      PassesFewer(s, i, d, f, 12, 13);
      PassesFewer(s, i, d, f, 7, 13);
      AllPassedStopsNowhere(s, i, d, f);
    }
  }

  lemma AllPassedStopsNowhere(s: Setup, i: nat, d: Disk, f: Proposed)
    requires PassesBefore(s, i, d, f, 13)
    ensures forall e :: !StopsAt(s, i, d, f, e)
  {
    hide Passes;
  }

  /** The state of a run after some actions. */
  datatype Trace = Trace(disk: Disk, results: seq<FileResult>, backups: seq<Backup>, stoppedAt: Option<nat>,
                         successCount: nat, failCount: nat)

  function SkipTail(f: Proposed): FileResult {
    FileResult(PathOf(f), f.operation.GetOr(""), Skipped(StoppedEarlier), None, None)
  }

  /** The trace after one more action: its effect, or a skip once the run has stopped. */
  function Extend(s: Setup, t: Trace, f: Proposed): Trace {
    var i := |t.results|;
    if t.stoppedAt.Some? then t.(results := t.results + [SkipTail(f)])
    else
      var e := Step(s, i, t.disk, f);
      Trace(e.disk, t.results + [e.result],
            t.backups + (if e.backup.Some? then [e.backup.value] else []),
            if e.result.status.Failed? then Some(i) else None,
            t.successCount + (if e.result.status.Success? then 1 else 0),
            t.failCount + (if e.result.status.Failed? then 1 else 0))
  }

  /** The run over the first n actions. */
  function After(s: Setup, d0: Disk, plan: seq<Proposed>, n: nat): (t: Trace)
    requires n <= |plan|
    ensures |t.results| == n
  {
    if n == 0 then Trace(d0, [], [], None, 0, 0)
    else Extend(s, After(s, d0, plan, n - 1), plan[n - 1])
  }

  function Run(s: Setup, d0: Disk, plan: seq<Proposed>): Trace {
    After(s, d0, plan, |plan|)
  }

  /** One pass of the loop body; a failed result is where the source breaks. */
  method ExecuteAction(s: Setup, i: nat, fs: FileSystem, f: Proposed)
    returns (entry: FileResult, backup: Option<Backup>)
    modifies fs
    ensures Effect(fs.View(), entry, backup) == Step(s, i, old(fs.View()), f)
    ensures Outcome(s, i, old(fs.View()), f, fs.View(), entry, backup)
  {
    StepOutcome(s, i, fs.View(), f);
    hide Outcome;
    var h, io := s.host, s.io(i);
    var path, operation := PathOf(f), OperationOf(f);
    entry, backup := FileResult(path, operation, Success, None, None), None;
    if operation != "create" && operation != "modify" {
      entry := entry.(status := Skipped(OperationNotAllowed));
      return;
    }
    if !h.ValidFilePath(path) {
      entry := entry.(status := Failed(InvalidPath));
      return;
    }
    if IsSensitivePath(path) {
      entry := entry.(status := Failed(Sensitive));
      return;
    }
    if h.IsLink(path) {
      entry := entry.(status := Failed(SymlinkTarget));
      return;
    }
    var key, parent := h.Key(path), h.Parent(path);
    if !h.Inside(key) {
      entry := entry.(status := Failed(EscapesWorkspace));
      return;
    }
    if parent !in fs.dirs {
      if s.strictParent {
        entry := entry.(status := Failed(ParentMissing));
        return;
      }
      if !h.InsideOrRoot(parent) {
        entry := entry.(status := Failed(ParentOutside));
        return;
      }
      if !io.mkdirOk || (exists a | a in Ancestors(parent) :: a in fs.files) {
        entry := entry.(status := Failed(ParentNotCreated));
        return;
      }
      fs.dirs := fs.dirs + Ancestors(parent);
    }
    if !h.InsideOrRoot(parent) {
      entry := entry.(status := Failed(ParentEscapes));
      return;
    }
    var exists_ := key in fs.files || key in fs.dirs;
    if operation == "create" && exists_ {
      entry := entry.(status := Failed(AlreadyExists));
      return;
    }
    if operation == "modify" && !exists_ {
      entry := entry.(status := Failed(TargetMissing));
      return;
    }
    if f.content == None {
      entry := entry.(status := Failed(InvalidContent));
      return;
    }
    if operation == "modify" {
      entry := entry.(before := if key in fs.files then Some(fs.files[key]) else None);
      if !io.readOk || key !in fs.files || fs.files[key].Binary? {
        entry := entry.(status := Failed(BackupUnreadable));
        return;
      }
      backup := Some(Backup(path, UniversalNewlines(fs.files[key].text), fs.files[key]));
    }
    if !io.writeOk {
      entry := entry.(status := Failed(WriteFailed));
      return;
    }
    fs.files := fs.files[key := Utf8(f.content.value)];
    entry := entry.(after := Some(Utf8(f.content.value)));
  }

  /** The action loop and the skip tail. */
  method ExecuteFiles(s: Setup, fs: FileSystem, plan: seq<Proposed>)
    returns (results: seq<FileResult>, backups: seq<Backup>, stoppedAt: Option<nat>,
             successCount: nat, failCount: nat)
    modifies fs
    ensures Trace(fs.View(), results, backups, stoppedAt, successCount, failCount) == Run(s, old(fs.View()), plan)
  {
    results, backups, stoppedAt, successCount, failCount := [], [], None, 0, 0;
    ghost var d0 := fs.View();
    ghost var t := After(s, d0, plan, 0);
    var i := 0;
    while i < |plan| && stoppedAt == None
      invariant i <= |plan|
      invariant stoppedAt.Some? ==> stoppedAt.value == i - 1
      invariant t == After(s, d0, plan, i)
      invariant t == Trace(fs.View(), results, backups, stoppedAt, successCount, failCount)
      decreases |plan| - i
    {
      t := Extend(s, t, plan[i]);
      var entry, backup := ExecuteAction(s, i, fs, plan[i]);
      results := results + [entry];
      if backup.Some? {
        backups := backups + [backup.value];
      }
      if entry.status.Failed? {
        stoppedAt := Some(i);
        failCount := failCount + 1;
      } else if entry.status.Success? {
        successCount := successCount + 1;
      }
      i := i + 1;
    }
    if stoppedAt.Some? {
      for j := stoppedAt.value + 1 to |plan|
        invariant stoppedAt.Some?
        invariant t == After(s, d0, plan, j)
        invariant t == Trace(fs.View(), results, backups, stoppedAt, successCount, failCount)
      {
        t := Extend(s, t, plan[j]);
        results := results + [SkipTail(plan[j])];
      }
    }
  }

  datatype RunStatus = Completed | RunFailed

  /** What the result row of a real run records, together with its backup rows. */
  datatype RunRecord = RunRecord(status: RunStatus, fileResults: seq<FileResult>, backups: seq<Backup>,
                                 commandResults: seq<CommandResult>, stoppedAt: Option<nat>)

  /** UNIQUE(execution_result_id, path) on the backup table of one run. */
  ghost predicate DistinctPaths(backups: seq<Backup>) {
    forall i, j | 0 <= i < j < |backups| :: backups[i].path != backups[j].path
  }

  /** Inserting the collected backups one by one; the unique index raises on a repeated path. */
  method InsertBackups(backups: seq<Backup>) returns (ok: bool)
    ensures ok <==> DistinctPaths(backups)
  {
    var stored: set<string> := {};
    for i := 0 to |backups|
      invariant DistinctPaths(backups[..i])
      invariant stored == set b | b in backups[..i] :: b.path
    {
      if backups[i].path in stored {
        var j :| 0 <= j < i && backups[..i][j].path == backups[i].path;
        return false;
      }
      stored := stored + {backups[i].path};
      assert backups[..i + 1] == backups[..i] + [backups[i]];
    }
    assert backups[..|backups|] == backups;
    return true;
  }

  /** The action got as far as collecting its backup: it then succeeded, or failed at the write itself. */
  predicate LeavesBackup(r: FileResult) {
    r.operation == "modify" && (r.status.Success? || r.status == Failed(WriteFailed))
  }

  /** No raw path is backed up twice. */
  predicate OneBackupPerPath(results: seq<FileResult>) {
    forall i, j | 0 <= i < j < |results| && LeavesBackup(results[i]) && LeavesBackup(results[j]) ::
      results[i].path != results[j].path
  }

  lemma StepBackup(s: Setup, i: nat, d: Disk, f: Proposed)
    ensures var e := Step(s, i, d, f);
      && (e.backup.Some? <==> LeavesBackup(e.result))
      && (e.backup.Some? ==> e.backup.value.path == e.result.path)
  {
  }

  /** The raw paths that were backed up, in order. */
  function BackedUp(results: seq<FileResult>): seq<string> {
    if results == [] then []
    else
      var last := results[|results| - 1];
      BackedUp(results[..|results| - 1]) + if LeavesBackup(last) then [last.path] else []
  }

  ghost predicate PathsOf(backups: seq<Backup>, paths: seq<string>) {
    |backups| == |paths| && forall k | 0 <= k < |backups| :: backups[k].path == paths[k]
  }

  lemma BackedUpNext(results: seq<FileResult>, r: FileResult)
    ensures BackedUp(results + [r]) == BackedUp(results) + if LeavesBackup(r) then [r.path] else []
  {
    assert (results + [r])[..|results|] == results;
  }

  /** The backup rows are those of the results that leave one. */
  lemma {:induction false} RowsAreBackedUp(s: Setup, d0: Disk, plan: seq<Proposed>, n: nat)
    requires n <= |plan|
    ensures var t := After(s, d0, plan, n); PathsOf(t.backups, BackedUp(t.results))
  {
    hide Step, BackedUp;
    NothingBackedUp();
    if n > 0 {
      RowsAreBackedUp(s, d0, plan, n - 1);
      var p := After(s, d0, plan, n - 1);
      StepBackup(s, n - 1, p.disk, plan[n - 1]);
      BackedUpNext(p.results, Extend(s, p, plan[n - 1]).results[n - 1]);
    }
  }

  lemma NothingBackedUp()
    ensures BackedUp([]) == []
  {
  }

  lemma {:induction false} BackedUpMembers(results: seq<FileResult>, path: string)
    ensures path in BackedUp(results) <==> exists i ::
        0 <= i < |results| && LeavesBackup(results[i]) && results[i].path == path
  {
    hide LeavesBackup;
    if results != [] {
      BackedUpMembers(results[..|results| - 1], path);
    }
  }

  ghost predicate AllDifferent(paths: seq<string>) {
    forall i, j | 0 <= i < j < |paths| :: paths[i] != paths[j]
  }

  lemma {:induction false} BackedUpDistinct(results: seq<FileResult>)
    ensures AllDifferent(BackedUp(results)) <==> OneBackupPerPath(results)
  {
    hide LeavesBackup, AllDifferent, OneBackupPerPath, BackedUp;
    if results == [] {
      NothingTwice();
    } else {
      var n := |results| - 1;
      var before, last := results[..n], results[n];
      assert results == before + [last];
      BackedUpDistinct(before);
      BackedUpMembers(before, last.path);
      BackedUpNext(before, last);
      OneMoreDifferent(BackedUp(before), last.path);
      OneMoreEntry(before, last);
      assert BackedUp(before) + [] == BackedUp(before);
    }
  }

  lemma NothingTwice()
    ensures AllDifferent(BackedUp([])) && OneBackupPerPath([])
  {
  }

  lemma OneMoreEntry(results: seq<FileResult>, last: FileResult)
    ensures OneBackupPerPath(results + [last]) <==>
      && OneBackupPerPath(results)
      && (LeavesBackup(last) ==>
            !exists i :: 0 <= i < |results| && LeavesBackup(results[i]) && results[i].path == last.path)
  {
    hide LeavesBackup;
    var all := results + [last];
    if OneBackupPerPath(all) {
      forall i, j | 0 <= i < j < |results| && LeavesBackup(results[i]) && LeavesBackup(results[j])
        ensures results[i].path != results[j].path
      {
        assert all[i].path != all[j].path;
      }
      forall i | 0 <= i < |results| && LeavesBackup(results[i]) && LeavesBackup(last)
        ensures results[i].path != last.path
      {
        assert all[i].path != all[|results|].path;
      }
    }
  }

  lemma OneMoreDifferent(paths: seq<string>, p: string)
    ensures AllDifferent(paths + [p]) <==> AllDifferent(paths) && p !in paths
  {
    var all := paths + [p];
    if AllDifferent(all) {
      forall i, j | 0 <= i < j < |paths| ensures paths[i] != paths[j] {
        assert all[i] != all[j];
      }
      forall i | 0 <= i < |paths| ensures paths[i] != p {
        assert all[i] != all[|paths|];
      }
    }
  }

  /** A run can be stored exactly when no two of its entries backed up the same raw path. */
  lemma StoredExactly(s: Setup, d0: Disk, plan: seq<Proposed>)
    ensures var t := Run(s, d0, plan); DistinctPaths(t.backups) <==> OneBackupPerPath(t.results)
  {
    hide LeavesBackup, BackedUp, OneBackupPerPath;
    var t := Run(s, d0, plan);
    RowsAreBackedUp(s, d0, plan, |plan|);
    BackedUpDistinct(t.results);
    SameDistinctness(t.backups, BackedUp(t.results));
  }

  lemma SameDistinctness(backups: seq<Backup>, paths: seq<string>)
    requires PathsOf(backups, paths)
    ensures DistinctPaths(backups) <==> AllDifferent(paths)
  {
    if AllDifferent(paths) {
      forall i, j | 0 <= i < j < |backups| ensures backups[i].path != backups[j].path {
        assert paths[i] != paths[j];
      }
    }
    if DistinctPaths(backups) {
      forall i, j | 0 <= i < j < |paths| ensures paths[i] != paths[j] {
        assert backups[i].path != backups[j].path;
      }
    }
  }

  function SkippedCommands(commands: seq<Command>): (r: seq<CommandResult>)
    ensures |r| == |commands|
    ensures forall k | 0 <= k < |r| :: r[k].command == Strip(commands[k].text) && r[k].status == NotRun
  {
    seq(|commands|, i requires 0 <= i < |commands| => CommandResult(Strip(commands[i].text), NotRun))
  }

  /** The commands of a run: started only if no file failed, else all reported as not run. */
  method RunCommands(shell: Shell, commands: seq<Command>, failCount: nat)
    returns (commandResults: seq<CommandResult>, commandFails: nat)
    ensures failCount == 0 ==> FailFast(shell, commands, commandResults)
    ensures failCount > 0 ==> commandResults == SkippedCommands(commands) && commandFails == 0
    ensures failCount == 0 ==> (commandFails == 0 <==> forall c | c in commandResults :: c.status == Succeeded)
  {
    commandResults, commandFails := [], 0;
    if commands != [] && failCount == 0 {
      commandResults := ExecuteScopedCommands(shell, commands);
      for k := 0 to |commandResults|
        invariant commandFails == 0 <==> forall j | 0 <= j < k :: commandResults[j].status == Succeeded
      {
        if commandResults[k].status != Succeeded {
          commandFails := commandFails + 1;
        }
      }
    } else if commands != [] && failCount > 0 {
      commandResults := SkippedCommands(commands);
    }
  }

  /**
   * A real run: files, then commands, then the record. None means that storing the backups raised:
   * the transaction is lost, and with it the result row, but the files stay written.
   */
  method ExecuteScopedFiles(s: Setup, fs: FileSystem, plan: seq<Proposed>, shell: Shell, commands: seq<Command>)
    returns (record: Option<RunRecord>)
    modifies fs
    ensures var t := Run(s, old(fs.View()), plan);
      && fs.View() == t.disk
      && (record.Some? <==> OneBackupPerPath(t.results))
      && (record.Some? ==>
            var r := record.value;
            && r.fileResults == t.results && r.backups == t.backups && r.stoppedAt == t.stoppedAt
            && (t.stoppedAt == None ==> FailFast(shell, commands, r.commandResults))
            && (t.stoppedAt.Some? ==> r.commandResults == SkippedCommands(commands))
            && (r.status == Completed <==>
                  t.stoppedAt == None && forall c | c in r.commandResults :: c.status == Succeeded))
  {
    hide Run, FailFast, OneBackupPerPath, DistinctPaths, SkippedCommands;
    var results, backups, stoppedAt, successCount, failCount := ExecuteFiles(s, fs, plan);
    FailCountMeansStopped(s, old(fs.View()), plan, |plan|);
    var commandResults, commandFails := RunCommands(shell, commands, failCount);
    var status := if failCount == 0 && commandFails == 0 then Completed else RunFailed;
    StoredExactly(s, old(fs.View()), plan);
    var stored := InsertBackups(backups);
    if !stored {
      return None;
    }
    return Some(RunRecord(status, results, backups, commandResults, stoppedAt));
  }

  lemma {:induction false} FailCountMeansStopped(s: Setup, d0: Disk, plan: seq<Proposed>, n: nat)
    requires n <= |plan|
    ensures var t := After(s, d0, plan, n); t.failCount == if t.stoppedAt.Some? then 1 else 0
    ensures n == |plan| ==> Run(s, d0, plan) == After(s, d0, plan, n)
  {
    hide Step;
    if n > 0 {
      FailCountMeansStopped(s, d0, plan, n - 1);
    }
  }
}
