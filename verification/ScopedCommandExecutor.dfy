/** The fail-fast command loop (scoped_command_executor.py); subprocesses answer arbitrarily. */
module ScopedCommandExecutor {
  import opened Wrappers
  import opened Text

  datatype Command = Command(text: string, workingDir: Option<string>)

  datatype Outcome = Exit(code: int) | TimedOut | NotFound | Broken

  datatype CommandStatus = Succeeded | CommandFailed | Timeout | NotRun

  datatype CommandResult = CommandResult(command: string, status: CommandStatus)

  /** Revalidation, argument parsing, and what the subprocess of the i-th command does. */
  datatype Shell = Shell(refuses: Command -> bool, parses: string -> bool, outcome: nat -> Outcome)

  /**
   * What the result of the i-th command tells: success and timeout are those of its subprocess, which is started
   * when the command is let through and can be parsed; all else is failure.
   */
  ghost predicate Reports(shell: Shell, commands: seq<Command>, i: nat, r: CommandResult)
    requires i < |commands|
  {
    var text := Strip(commands[i].text);
    var launched := !shell.refuses(commands[i].(text := text)) && shell.parses(text);
    && r.command == text && r.status != NotRun
    && (r.status == Succeeded <==> launched && shell.outcome(i) == Exit(0))
    && (r.status == Timeout <==> launched && shell.outcome(i) == TimedOut)
  }

  /** The commands that are not blank among the first n, by index. */
  function Runnable(commands: seq<Command>, n: nat): (r: seq<nat>)
    requires n <= |commands|
    ensures forall j | 0 <= j < |r| :: r[j] < n
  {
    if n == 0 then []
    else Runnable(commands, n - 1) + (if Strip(commands[n - 1].text) == "" then [] else [n - 1])
  }

  /** Just the commands that are not blank are run, in their order. */
  lemma {:induction false} RunnableExactly(commands: seq<Command>, n: nat)
    requires n <= |commands|
    ensures forall i | 0 <= i < n :: i in Runnable(commands, n) <==> Strip(commands[i].text) != ""
    ensures forall j, k | 0 <= j < k < |Runnable(commands, n)| :: Runnable(commands, n)[j] < Runnable(commands, n)[k]
  {
    hide Strip;
    if n > 0 {
      RunnableExactly(commands, n - 1);
    }
  }

  lemma {:induction false} RunnablePrefix(commands: seq<Command>, m: nat, n: nat)
    requires m <= n <= |commands|
    ensures Runnable(commands, m) <= Runnable(commands, n)
  {
    if m < n {
      RunnablePrefix(commands, m, n - 1);
    }
  }

  /**
   * The results are those of the runnable commands, in order, up to and including the first that
   * does not succeed.
   */
  ghost predicate FailFast(shell: Shell, commands: seq<Command>, results: seq<CommandResult>) {
    var run := Runnable(commands, |commands|);
    && |results| <= |run|
    && (forall j | 0 <= j < |results| :: Reports(shell, commands, run[j], results[j]))
    && (forall j | 0 <= j < |results| - 1 :: results[j].status == Succeeded)
    && (|results| < |run| ==> results != [] && results[|results| - 1].status != Succeeded)
  }

  /** One command: revalidated, parsed, run. */
  method RunCommand(shell: Shell, commands: seq<Command>, i: nat) returns (entry: CommandResult)
    requires i < |commands|
    ensures Reports(shell, commands, i, entry)
  {
    var text := Strip(commands[i].text);
    entry := CommandResult(text, CommandFailed);
    if shell.refuses(commands[i].(text := text)) {
      return;
    }
    if !shell.parses(text) {
      return;
    }
    match shell.outcome(i) {
      case Exit(code) => entry := entry.(status := if code == 0 then Succeeded else CommandFailed);
      case TimedOut => entry := entry.(status := Timeout);
      case NotFound => entry := entry.(status := CommandFailed);
      case Broken => entry := entry.(status := CommandFailed);
    }
  }

  method ExecuteScopedCommands(shell: Shell, commands: seq<Command>) returns (results: seq<CommandResult>)
    ensures FailFast(shell, commands, results)
  {
    hide Reports, Strip;
    results := [];
    for i := 0 to |commands|
      invariant |results| == |Runnable(commands, i)|
      invariant forall j | 0 <= j < |results| :: Reports(shell, commands, Runnable(commands, i)[j], results[j])
      invariant forall j | 0 <= j < |results| :: results[j].status == Succeeded
    {
      if Strip(commands[i].text) == "" {
        continue;
      }
      RunnablePrefix(commands, i + 1, |commands|);
      var entry := RunCommand(shell, commands, i);
      results := results + [entry];
      if entry.status != Succeeded {
        return;
      }
    }
  }
}
