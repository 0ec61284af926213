/**
  The option types the argument parser produces and the leaf code consumes.
  They are declared outside the files this model covers; these declarations
  follow their use sites.
*/
module Types {
  import opened Wrappers

  /** A requested operation: any name, not drawn from a fixed set. */
  datatype Operation = Operation(name: string)

  /** Whether to run in the current directory only or in every discovered one. */
  datatype Depth = Here | Recursive

  datatype ExecOptions = ExecOptions(depth: Depth, quiet: bool)

  /** Human-oriented or script-friendly listing. */
  datatype PrintStyle = Pretty | Porcelain

  /** What one invocation of the program was asked to do. */
  datatype Options =
    | Version
    | Help
    | Leaves(style: PrintStyle)
    | List(style: PrintStyle)
    | Seed(language: Option<string>)
    | Exec(op: Operation, opts: ExecOptions)
}
