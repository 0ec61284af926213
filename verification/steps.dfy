/**
  The command lines declared for one operation: how they are read from a
  YAML value (a single string or a sequence of strings) and how they run,
  one after another, stopping at the first that fails.
*/
module Steps {
  import opened Wrappers
  import opened Yaml
  import opened Paths
  import opened Shell
  import opened Errors

  /** Command lines in execution order. */
  datatype Steps = Steps(values: seq<string>)

  /** No command lines: what an operation a file does not mention resolves to. */
  function Default(): (r: Steps)
    ensures |r.values| == 0
  {
    Steps([])
  }

  /** Whether there is at least one command line, i.e. the steps are not the default. */
  predicate Any(s: Steps)
    ensures Any(s) <==> s != Default()
  {
    |s.values| != 0
  }

  // ---------------------------------------------------------------------------
  // Reading steps from YAML
  // ---------------------------------------------------------------------------

  /**
    The strings at the head of `items`, up to the first element that is not
    a string. This is the sequence visitor's loop: it keeps reading elements
    as strings and ends, without an error, at the first that does not read.
  */
  function StringPrefix(items: seq<Value>): (r: seq<string>)
    ensures |r| <= |items|
    ensures forall i :: 0 <= i < |r| ==> items[i] == Str(r[i])
    ensures |r| < |items| ==> !items[|r|].Str?
  {
    if |items| == 0 || !items[0].Str? then [] else [items[0].s] + StringPrefix(items[1..])
  }

  /**
    The one-or-many visitor: a string becomes a single step, a sequence
    becomes its leading strings, and every other shape is a type error
    (none here).
  */
  function Decode(v: Value): (r: Option<Steps>)
    ensures v.Str? ==> r == Some(Steps([v.s]))
    ensures v.Sequence? ==> r.Some?
    ensures v.Sequence? ==> |r.value.values| <= |v.items|
    ensures v.Sequence? ==> forall i :: 0 <= i < |r.value.values| ==> v.items[i] == Str(r.value.values[i])
    ensures v.Sequence? && |r.value.values| < |v.items| ==> !v.items[|r.value.values|].Str?
    ensures !v.Str? && !v.Sequence? ==> r.None?
  {
    match v
    case Str(s) => Some(Steps([s]))
    case Sequence(items) => Some(Steps(StringPrefix(items)))
    case _ => None
  }

  /** Each command line as a YAML string. */
  function Strs(values: seq<string>): (r: seq<Value>)
    ensures |r| == |values|
    ensures forall i :: 0 <= i < |r| ==> r[i] == Str(values[i])
  {
    seq(|values|, i requires 0 <= i < |values| => Str(values[i]))
  }

  /** Steps written as a YAML sequence of strings. */
  function Encode(s: Steps): Value {
    Sequence(Strs(s.values))
  }

  /** The string prefix of some strings followed by a non-string (or nothing) is those strings. */
  lemma {:induction false} StringPrefixOfStrs(values: seq<string>, rest: seq<Value>)
    requires |rest| == 0 || !rest[0].Str?
    ensures StringPrefix(Strs(values) + rest) == values
    decreases |values|
  {
    if |values| > 0 {
      assert (Strs(values) + rest)[1..] == Strs(values[1..]) + rest;
      StringPrefixOfStrs(values[1..], rest);
    } else {
      assert Strs(values) + rest == rest;
    }
  }

  /**
    A sequence that starts with the strings `values`, followed by nothing
    or by an element that is not a string, decodes to exactly `values`:
    whatever follows the first non-string is dropped.
  */
  lemma DecodeStringsThenOther(values: seq<string>, rest: seq<Value>)
    requires |rest| == 0 || !rest[0].Str?
    ensures Decode(Sequence(Strs(values) + rest)) == Some(Steps(values))
  {
    StringPrefixOfStrs(values, rest);
  }

  /** Decoding what `Encode` wrote gives the same steps back. */
  lemma DecodeEncode(s: Steps)
    ensures Decode(Encode(s)) == Some(s)
  {
    assert Strs(s.values) + [] == Strs(s.values);
    DecodeStringsThenOther(s.values, []);
  }

  // ---------------------------------------------------------------------------
  // Running steps
  // ---------------------------------------------------------------------------

  /**
    The error one command's exit makes `run_all` report, or none when the
    command succeeded: a spawn failure is "not found", an unsuccessful exit
    reports its code, or -1 when the process has none.
  */
  function FailureOf(command: string, exit: Exit): (r: Option<Error>)
    ensures r.None? <==> Succeeded(exit)
    ensures exit.SpawnFailed? ==> r == Some(CommandNotFound(command, exit.cause))
    ensures exit.Exited? && !Succeeded(exit) ==>
      r == Some(CommandFailed(command, if exit.code.Some? then exit.code.value else -1))
  {
    match exit
    case SpawnFailed(cause) => Some(CommandNotFound(command, cause))
    case Exited(code) =>
      if code == Some(0) then None
      else Some(CommandFailed(command, match code case Some(c) => c case None => -1))
  }

  /**
    `run_all`: run each command line in `cwd`, in order, and stop at the
    first one that fails, reporting its error. `past` is what ran before
    this call; the trace lists the commands this call attempted.
  */
  function RunAll(s: Steps, cwd: Path, shell: Oracle, past: seq<Invocation>): (r: Attempts<Error>)
    ensures |r.trace| <= |s.values|
    ensures forall i :: 0 <= i < |r.trace| ==> r.trace[i] == Invocation(cwd, s.values[i])
    ensures r.outcome.Pass? ==> |r.trace| == |s.values|
    ensures r.outcome.Fail? ==> |r.trace| > 0
    ensures !Any(s) ==> r == Attempts([], Pass)
    decreases |s.values|
  {
    if |s.values| == 0 then Attempts([], Pass)
    else
      var inv := Invocation(cwd, s.values[0]);
      match FailureOf(s.values[0], shell(past, inv))
      case Some(e) => Attempts([inv], Fail(e))
      case None =>
        var rest := RunAll(Steps(s.values[1..]), cwd, shell, past + [inv]);
        Attempts([inv] + rest.trace, rest.outcome)
  }

  /** The answers for the tail of a step list, run after its head, are the later answers for the whole list. */
  lemma TailReplies(s: Steps, cwd: Path, shell: Oracle, past: seq<Invocation>)
    requires |s.values| > 0
    ensures ReplyAt(shell, past, Invocations(cwd, s.values), 0) == shell(past, Invocation(cwd, s.values[0]))
    ensures forall i :: 0 <= i < |s.values| - 1 ==>
      ReplyAt(shell, past + [Invocation(cwd, s.values[0])], Invocations(cwd, s.values[1..]), i)
      == ReplyAt(shell, past, Invocations(cwd, s.values), i + 1)
  {
    var plan := Invocations(cwd, s.values);
    assert past + plan[..0] == past;
    InvocationsTail(cwd, s.values);
    forall i | 0 <= i < |s.values| - 1
      ensures ReplyAt(shell, past + [plan[0]], plan[1..], i) == ReplyAt(shell, past, plan, i + 1)
    {
      ReplyAtShift(shell, past, plan, i + 1);
    }
  }

  /**
    When command `k` is the first whose answer is not success, `run_all`
    attempts exactly commands 0..k, in order, in `cwd`, never the later
    ones, and reports command `k`'s error.
  */
  lemma {:induction false} RunAllStopsAtFirstFailure(s: Steps, cwd: Path, shell: Oracle, past: seq<Invocation>, k: nat)
    requires k < |s.values|
    requires forall i :: 0 <= i < k ==> Succeeded(ReplyAt(shell, past, Invocations(cwd, s.values), i))
    requires !Succeeded(ReplyAt(shell, past, Invocations(cwd, s.values), k))
    ensures RunAll(s, cwd, shell, past).trace == Invocations(cwd, s.values[..k + 1])
    ensures RunAll(s, cwd, shell, past).outcome
         == Fail(FailureOf(s.values[k], ReplyAt(shell, past, Invocations(cwd, s.values), k)).value)
    decreases k
  {
    var inv := Invocation(cwd, s.values[0]);
    TailReplies(s, cwd, shell, past);
    if k == 0 {
      assert Invocations(cwd, s.values[..1]) == [inv];
    } else {
      var tail := Steps(s.values[1..]);
      var plan := Invocations(cwd, s.values);
      var tailPlan := Invocations(cwd, tail.values);
      assert forall i :: 0 <= i < k - 1 ==> Succeeded(ReplyAt(shell, past + [inv], tailPlan, i)) by {
        forall i | 0 <= i < k - 1
          ensures Succeeded(ReplyAt(shell, past + [inv], tailPlan, i))
        {
          assert ReplyAt(shell, past + [inv], tailPlan, i) == ReplyAt(shell, past, plan, i + 1);
        }
      }
      assert ReplyAt(shell, past + [inv], tailPlan, k - 1) == ReplyAt(shell, past, plan, k);
      RunAllStopsAtFirstFailure(tail, cwd, shell, past + [inv], k - 1);
      var rest := RunAll(tail, cwd, shell, past + [inv]);
      assert RunAll(s, cwd, shell, past) == Attempts([inv] + rest.trace, rest.outcome);
      assert tail.values[..k] == s.values[1..k + 1];
      InvocationsTail(cwd, s.values[..k + 1]);
    }
  }

  /** When every command succeeds, `run_all` attempts all of them, in order, and succeeds. */
  lemma {:induction false} RunAllRunsEverything(s: Steps, cwd: Path, shell: Oracle, past: seq<Invocation>)
    requires forall i :: 0 <= i < |s.values| ==> Succeeded(ReplyAt(shell, past, Invocations(cwd, s.values), i))
    ensures RunAll(s, cwd, shell, past) == Attempts(Invocations(cwd, s.values), Pass)
    decreases |s.values|
  {
    if |s.values| > 0 {
      var inv := Invocation(cwd, s.values[0]);
      var tail := Steps(s.values[1..]);
      TailReplies(s, cwd, shell, past);
      RunAllRunsEverything(tail, cwd, shell, past + [inv]);
      InvocationsTail(cwd, s.values);
    }
  }
}
