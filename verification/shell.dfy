/**
  The shell as an oracle. Running `sh -c <command>` in a directory is not
  modelled; instead the caller supplies a function that says how each
  invocation ends, given every invocation that ran before it (so a command
  may depend on what earlier commands did to the filesystem).
*/
module Shell {
  import opened Wrappers
  import opened Paths

  /** One attempt to run a command line in a working directory. */
  datatype Invocation = Invocation(cwd: Path, command: string)

  /**
    How an attempt ended: the shell ran and exited, with its exit code when
    one is available (none when a signal killed it), or the shell could not
    be spawned at all.
  */
  datatype Exit = Exited(code: Option<int>) | SpawnFailed(cause: string)

  /** The answer for an invocation, given the invocations that already ran. */
  type Oracle = (seq<Invocation>, Invocation) -> Exit

  /** `ExitStatus::success`: the process exited with code 0. */
  predicate Succeeded(e: Exit) {
    e == Exited(Some(0))
  }

  /** The invocations a run attempted, in order, and how the run ended. */
  datatype Attempts<+E> = Attempts(trace: seq<Invocation>, outcome: Outcome<E>)

  /** The invocations of `commands`, in order, all in `cwd`. */
  function Invocations(cwd: Path, commands: seq<string>): (r: seq<Invocation>)
    ensures |r| == |commands|
    ensures forall i :: 0 <= i < |r| ==> r[i] == Invocation(cwd, commands[i])
  {
    seq(|commands|, i requires 0 <= i < |commands| => Invocation(cwd, commands[i]))
  }

  /**
    The answer to the `i`-th invocation of `plan`, when `past` and then the
    first `i` invocations of `plan` ran before it.
  */
  function ReplyAt(shell: Oracle, past: seq<Invocation>, plan: seq<Invocation>, i: nat): Exit
    requires i < |plan|
  {
    shell(past + plan[..i], plan[i])
  }

  /** Dropping the first planned invocation into the history shifts the indices by one. */
  lemma ReplyAtShift(shell: Oracle, past: seq<Invocation>, plan: seq<Invocation>, i: nat)
    requires 0 < i < |plan|
    ensures ReplyAt(shell, past, plan, i) == ReplyAt(shell, past + [plan[0]], plan[1..], i - 1)
  {
    assert past + plan[..i] == (past + [plan[0]]) + plan[1..][..i - 1];
  }

  /**
    In a plan made of two parts, the answers in the first part do not depend
    on the second, and the second part runs after the whole first part.
  */
  lemma ReplyAtSplit(shell: Oracle, past: seq<Invocation>, a: seq<Invocation>, b: seq<Invocation>)
    ensures forall i :: 0 <= i < |a| ==> ReplyAt(shell, past, a + b, i) == ReplyAt(shell, past, a, i)
    ensures forall j :: 0 <= j < |b| ==> ReplyAt(shell, past, a + b, |a| + j) == ReplyAt(shell, past + a, b, j)
  {
    forall i | 0 <= i < |a|
      ensures ReplyAt(shell, past, a + b, i) == ReplyAt(shell, past, a, i)
    {
      assert (a + b)[..i] == a[..i];
    }
    forall j | 0 <= j < |b|
      ensures ReplyAt(shell, past, a + b, |a| + j) == ReplyAt(shell, past + a, b, j)
    {
      assert past + (a + b)[..|a| + j] == (past + a) + b[..j];
    }
  }

  /** Invocations of a list split at its head. */
  lemma InvocationsTail(cwd: Path, commands: seq<string>)
    requires |commands| > 0
    ensures Invocations(cwd, commands)[1..] == Invocations(cwd, commands[1..])
    ensures Invocations(cwd, commands) == [Invocation(cwd, commands[0])] + Invocations(cwd, commands[1..])
  {
  }
}
