/** The errors the leaf and step code report, and the text each one displays as. */
module Errors {

  datatype Error =
    /** The shell for `command` could not be spawned; `cause` is the OS error behind it. */
    | CommandNotFound(command: string, cause: string)
    /** The shell for `command` ran and exited unsuccessfully with `code` (-1 when it had none). */
    | CommandFailed(command: string, code: int)
    /** A leaf's path has no parent directory to run its commands in. */
    | NoParentDirectory
    /** The candidate task-definition file does not exist. */
    | NoFileHere
    /** Discovery found no fern.yaml file. */
    | NoFilesAnywhere
    /** The file exists but could not be opened; `cause` is the OS error. */
    | OpenFailed(cause: string)
    /** The file's content is not a mapping of operation names to steps. */
    | ReadFailed

  /** The text the error displays as (its outermost context, as anyhow prints it). */
  function Message(e: Error): (r: string)
    ensures e.CommandNotFound? ==> r == "Did not find " + e.command
    ensures e.CommandFailed? ==> r == "Failed to execute command '" + e.command + "': exit code " + IntToString(e.code)
    ensures e.NoParentDirectory? ==> r == "Unable to get parent directory to run command in"
    ensures e.NoFileHere? ==> r == "Did not find a fern.yaml file in here"
    ensures e.NoFilesAnywhere? ==> r == "Did not find any fern.yaml files"
    ensures e.OpenFailed? ==> r == e.cause
    ensures e.ReadFailed? ==> r == "There was an error when reading the file"
  {
    match e
    case CommandNotFound(command, _) => "Did not find " + command
    case CommandFailed(command, code) =>
      "Failed to execute command '" + command + "': exit code " + IntToString(code)
    case NoParentDirectory => "Unable to get parent directory to run command in"
    case NoFileHere => "Did not find a fern.yaml file in here"
    case NoFilesAnywhere => "Did not find any fern.yaml files"
    case OpenFailed(cause) => cause
    case ReadFailed => "There was an error when reading the file"
  }

  function DigitChar(d: nat): (c: char)
    requires d < 10
    ensures '0' <= c <= '9' && c as int - '0' as int == d
  {
    "0123456789"[d]
  }

  /** `n` in decimal, most significant digit first, with no leading zeros. */
  function NatToString(n: nat): (r: string)
    ensures |r| > 0
    ensures forall i :: 0 <= i < |r| ==> '0' <= r[i] <= '9'
    ensures n > 0 ==> r[0] != '0'
  {
    if n < 10 then [DigitChar(n)] else NatToString(n / 10) + [DigitChar(n % 10)]
  }

  /** `i` in decimal as `{}` formats an integer: a minus sign, then the magnitude. */
  function IntToString(i: int): (r: string)
    ensures |r| > 0
    ensures r[0] == '-' <==> i < 0
  {
    if i < 0 then "-" + NatToString(-i) else NatToString(i)
  }

  /** The number a string of decimal digits denotes. */
  function DecimalValue(s: string): nat
    requires forall i :: 0 <= i < |s| ==> '0' <= s[i] <= '9'
  {
    if |s| == 0 then 0 else 10 * DecimalValue(s[..|s| - 1]) + (s[|s| - 1] as int - '0' as int)
  }

  /** Reading the decimal text back gives the number that was formatted. */
  lemma {:induction false} NatToStringRoundTrip(n: nat)
    ensures DecimalValue(NatToString(n)) == n
  {
    if n >= 10 {
      var r := NatToString(n);
      assert r[..|r| - 1] == NatToString(n / 10);
      NatToStringRoundTrip(n / 10);
    }
  }

  /** The exit-code text names the code exactly, including the -1 sentinel. */
  lemma {:induction false} IntToStringRoundTrip(i: int)
    ensures i < 0 ==> DecimalValue(IntToString(i)[1..]) == -i
    ensures i >= 0 ==> DecimalValue(IntToString(i)) == i
  {
    if i < 0 {
      var digits := NatToString(-i);
      assert IntToString(i) == "-" + digits;
      assert IntToString(i)[1..] == digits;
      NatToStringRoundTrip(-i);
    } else {
      NatToStringRoundTrip(i);
    }
  }

  /** The exit-code message starts with the command text and ends with the code. */
  lemma CommandFailedMessage(command: string, code: int)
    ensures var m := Message(CommandFailed(command, code));
      var k := |"Failed to execute command '"|;
      m[k..k + |command|] == command && m[|m| - |IntToString(code)|..] == IntToString(code)
  {
  }
}
