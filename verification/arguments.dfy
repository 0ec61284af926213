/**
  The command-line decision table: how the argument list (without the
  program name) becomes an `Options` value.

  Two operations of the argument library are modelled here, as assumptions
  about it: asking whether a flag is present tests whether its short or long
  spelling occurs anywhere in the list; taking the subcommand takes the first
  remaining argument when that argument does not start with `-`, and takes
  nothing otherwise. A flag found by the presence test is also removed by the
  library, but nothing reads the list after a successful test, so the model
  does not remove it.
*/
module Arguments {
  import opened Wrappers
  import opened Types

  /** Whether the flag is present under its short or its long spelling. */
  predicate Contains(args: seq<string>, short: string, long: string) {
    short in args || long in args
  }

  /** An argument the library can take as a subcommand: one that does not start with `-`. */
  predicate IsFree(arg: string) {
    |arg| == 0 || arg[0] != '-'
  }

  /** A subcommand taken from the argument list, and the arguments left after it. */
  datatype Split = Split(command: Option<string>, rest: seq<string>)

  /** The subcommand: the first argument when it is free, removed from the list. */
  function Subcommand(args: seq<string>): (r: Split)
    ensures r.command.Some? <==> |args| > 0 && IsFree(args[0])
    ensures r.command.Some? ==> r.command.value == args[0] && r.rest == args[1..]
    ensures r.command.None? ==> r.rest == args
  {
    if |args| > 0 && IsFree(args[0]) then Split(Some(args[0]), args[1..]) else Split(None, args)
  }

  /** The subcommands with a meaning of their own; every other name is an operation. */
  const Reserved: set<string> := {"help", "leaves", "list", "seed"}

  /**
    `opts`: the depth is `Here` exactly when the next argument is `here`
    (a free argument that is anything else is consumed all the same); quiet
    is set exactly when `-q` or `--quiet` is present.
  */
  function Opts(args: seq<string>): (r: ExecOptions)
    ensures r.depth == Here <==> |args| > 0 && args[0] == "here"
    ensures r.quiet <==> Contains(args, "-q", "--quiet")
  {
    var split := Subcommand(args);
    var depth := if split.command == Some("here") then Here else Recursive;
    assert split.command.Some? ==> args == [args[0]] + split.rest;
    ExecOptions(depth, Contains(split.rest, "-q", "--quiet"))
  }

  /** `style`: porcelain exactly when `-p` or `--porcelain` is present, pretty otherwise. */
  function Style(args: seq<string>): (r: PrintStyle)
    ensures r == Porcelain <==> Contains(args, "-p", "--porcelain")
  {
    if Contains(args, "-p", "--porcelain") then Porcelain else Pretty
  }

  /** Whether the version is asked for. */
  predicate VersionRequested(args: seq<string>) {
    Contains(args, "-v", "--version")
  }

  /**
    `parse`: the version flag anywhere wins; then the first free argument
    picks the subcommand (none means help); `help`, `leaves`, `list` and
    `seed` have their own meanings, and any other name is an operation run
    with the options that follow it.
  */
  function Parse(args: seq<string>): (r: Options)
    ensures r.Version? <==> VersionRequested(args)
    ensures r.Help? <==> !VersionRequested(args) && (|args| == 0 || !IsFree(args[0]) || args[0] == "help")
    ensures r.Leaves? <==> !VersionRequested(args) && |args| > 0 && args[0] == "leaves"
    ensures r.List? <==> !VersionRequested(args) && |args| > 0 && args[0] == "list"
    ensures (r.Leaves? || r.List?) ==> (r.style == Porcelain <==> Contains(args, "-p", "--porcelain"))
    ensures r.Seed? <==> !VersionRequested(args) && |args| > 0 && args[0] == "seed"
    ensures r.Seed? ==> r.language == if |args| > 1 && IsFree(args[1]) then Some(args[1]) else None
    ensures r.Exec? <==> !VersionRequested(args) && |args| > 0 && IsFree(args[0]) && args[0] !in Reserved
    ensures r.Exec? ==> r.op == Operation(args[0])
    ensures r.Exec? ==> (r.opts.depth == Here <==> |args| > 1 && args[1] == "here")
    ensures r.Exec? ==> (r.opts.quiet <==> Contains(args, "-q", "--quiet"))
  {
    if VersionRequested(args) then Version
    else
      var split := Subcommand(args);
      match split.command
      case None => Help
      case Some(cmd) =>
        assert args == [cmd] + split.rest;
        if cmd == "help" then Help
        else if cmd == "leaves" then Leaves(Style(split.rest))
        else if cmd == "seed" then Seed(Subcommand(split.rest).command)
        else if cmd == "list" then List(Style(split.rest))
        else Exec(Operation(cmd), Opts(split.rest))
  }

  /** The version flag wins wherever it stands and whatever else is given. */
  lemma VersionWins(before: seq<string>, flag: string, after: seq<string>)
    requires flag == "-v" || flag == "--version"
    ensures Parse(before + [flag] + after) == Version
  {
    assert (before + [flag] + after)[|before|] == flag;
  }

  /**
    Any free name that is not reserved becomes an operation of exactly that
    name, whatever arguments follow (unless they ask for the version).
  */
  lemma AnyNameIsAnOperation(name: string, rest: seq<string>)
    requires IsFree(name) && name !in Reserved && !VersionRequested(rest)
    ensures Parse([name] + rest).Exec? && Parse([name] + rest).op.name == name
  {
    assert ([name] + rest)[0] == name;
    assert name != "-v" && name != "--version";
  }

  /** Arguments the command-line tests use, and what they parse to. */
  lemma CommandLineExamples()
    ensures Parse([]) == Help
    ensures Parse(["-v"]) == Version
    ensures Parse(["fmt"]) == Exec(Operation("fmt"), ExecOptions(Recursive, false))
    ensures Parse(["fmt", "here"]) == Exec(Operation("fmt"), ExecOptions(Here, false))
    ensures Parse(["fmt", "here", "-q"]) == Exec(Operation("fmt"), ExecOptions(Here, true))
    ensures Parse(["leaves"]) == Leaves(Pretty)
    ensures Parse(["leaves", "-p"]) == Leaves(Porcelain)
    ensures Parse(["list"]) == List(Pretty)
    ensures Parse(["run", "--here"]) == Exec(Operation("run"), ExecOptions(Recursive, false))
    ensures Parse(["seed", "rust"]) == Seed(Some("rust"))
  {
  }
}
