# fern, modelled in Dafny

fern is a monorepo task runner. Each directory of a project may hold a
`fern.yaml` file that maps operation names (`fmt`, `build`, `test`, or any
other name) to one shell command or a list of them. `fern <op>` finds every
such file under the current directory and runs that operation's commands,
in order, in the directory that holds the file. `fern <op> here` does the
same for the current directory's file only.

This project models fern's resolution rules as pure functions over
immutable data:

- `Steps` (src/steps.rs): the command lines of one operation. A YAML string
  reads as one command. A YAML sequence reads as its leading strings.
  `run_all` runs the commands one after another and stops at the first that
  fails.
- `Leaf` (src/leaf.rs): one loaded `fern.yaml`. It covers loading a file,
  looking up an operation (a missing one has no steps), the advertised
  operations, running an operation in the file's directory, discovering
  files in a directory walk, and loading every discovered file.
- `Arguments` (src/arguments.rs): the table that turns the argument list
  into an `Options` value (`Version`, `Help`, `Leaves`, `List`, `Seed` or
  `Exec`).
- `Legacy` (src/main.rs): the earlier version of the program. It has four
  fixed operations that default to empty, and a runner that ignores exit
  codes. Its walker panics on errors.

Side effects are replaced by given data:

- The shell is an oracle (`Shell.Oracle`). It tells how each invocation
  ends, given every invocation that ran before it. Every run returns the
  trace of the invocations it attempted.
- The filesystem is a map from existing paths to what reading them yields
  (`Leaf.FileSystem`).
- The directory walk is a given sequence of entries and errors.
- Paths are lists of components (`Paths.Path`). `Parent` and `FileName`
  follow Rust's `Path::parent` and `Path::file_name`.

The argument library is modelled under two assumptions, because its code
is not part of this model:

- A flag counts as present when its short or long spelling occurs anywhere
  in the list. The library also removes a flag it finds, but nothing reads
  the list after that.
- The subcommand is the first remaining argument, and only when that
  argument does not start with `-`. So `fern run --here` runs `run`
  recursively, and `fern fmt -q here` runs `fmt` recursively as well.

The types `Operation`, `Depth`, `ExecOptions`, `PrintStyle` and `Options`
are declared outside the modelled files. Module `Types` declares them as
they are used there.

The two visitors for "a single string or a sequence of strings", in
src/steps.rs and in src/main.rs, are written the same way. The model
defines the visitor once, as `Steps.Decode`, and `Legacy` uses it too. The
libraries that drive the two visitors differ; see "## Left out".

Behaviour of the code worth knowing:

- `find_fern_files` keeps every entry named `fern.yaml`, directories
  included. Only the older `find_all_leafs` skips directories
  (`Legacy.DirectoriesDiffer` shows the difference).
- The visitor does not fail on a sequence with a non-string element. It
  returns the strings before that element. In a leaf file, the library then
  rejects the value unless that element was the sequence's last
  (`Leaf.ReadToEnd`). So `fmt: [a, 12]` reads as `a`, and `fmt: [a, 12, b]`
  fails with the fixed read error.
- A walk error ends discovery silently. The files found before it are kept.
- A loaded leaf stores the path of the file. Its directory is derived only
  when an operation runs.

## Model

| member | source | states |
|---|---|---|
| Paths.Parent | src/leaf.rs:73-77 | The parent is missing exactly when the path has no component left; otherwise joining the last component back onto it gives the original path |
| Paths.FileName | src/leaf.rs:86 | A file name is the last component; there is none exactly when the path is empty or ends in `.` or `..` |
| Errors.NatToStringRoundTrip | src/steps.rs:33-37 | The decimal text of an exit code reads back as the same number |
| Errors.IntToStringRoundTrip | src/steps.rs:36 | A negative code, such as the -1 used when a process has no exit code, prints as a minus sign followed by its magnitude; other codes print as their digits |
| Errors.Message | src/steps.rs:31-37 | The displayed text of each error: "Did not find <command>" for a spawn failure, the command and exit code for a failed exit, and the fixed texts for a missing parent directory, a missing `./fern.yaml`, no files found and a read error (src/leaf.rs:28, :38, :47, :76); an open error shows its OS text |
| Errors.CommandFailedMessage | src/steps.rs:33-37 | The exit-failure message contains the command text at a fixed offset and ends with the exit code |
| Steps.Default | src/steps.rs:13-17 | The default steps have no command lines |
| Steps.Any | src/steps.rs:20-22 | `any()` holds exactly when the steps differ from the default (empty) steps |
| Steps.StringPrefix | src/steps.rs:69-75 | The visitor's loop keeps the leading string elements, in order, and ends at the first element that is not a string (or at the end) |
| Steps.Decode | src/steps.rs:59-79 | A string reads as exactly one step equal to it; a sequence always reads, as its leading strings in order, stopping at the first non-string; every other shape is a type error |
| Steps.StringPrefixOfStrs | src/steps.rs:71-73 | Strings followed by nothing or by a non-string yield exactly those strings |
| Steps.DecodeStringsThenOther | src/steps.rs:65-76 | A sequence of strings followed by a non-string decodes to exactly those strings; everything after the first non-string is dropped |
| Steps.DecodeEncode | src/steps.rs:59-76 | Steps written as a sequence of strings decode back to the same steps |
| Steps.FailureOf | src/steps.rs:26-38 | A command fails exactly when its exit is not a successful exit; a spawn failure is reported as "did not find" that command, and an unsuccessful exit as that command with its code, or -1 when there is none |
| Steps.RunAll | src/steps.rs:24-42 | `run_all` attempts a prefix of the commands, in list order, all in the same working directory; success means every command was attempted; empty steps run nothing and succeed |
| Steps.RunAllStopsAtFirstFailure | src/steps.rs:25-38 | If command k is the first to fail, commands 0..k are attempted in order, commands after k never are, and the error is command k's |
| Steps.RunAllRunsEverything | src/steps.rs:25-41 | If every command succeeds, all are attempted in order and the run succeeds |
| Leaf.FromYaml | src/leaf.rs:11-18 | A document reads exactly when it is a mapping whose every value the visitor accepts and reads to its end; the leaf has exactly the document's keys with their decoded steps and an empty path; any other document fails with the fixed read error |
| Leaf.SequenceReadToEnd | src/leaf.rs:37-39 | For any key, any strings and any non-string after them: the value loads as those strings when the non-string is the last element, and fails with the fixed read error when anything follows it |
| Leaf.FromYamlToYaml | src/leaf.rs:37-39 | Any operation map written as YAML reads back as the same operations |
| Leaf.FromFile | src/leaf.rs:45-57 | A missing path fails with "no fern.yaml here", and that is the only way to get that error; open and read errors fail the load; an existing, openable document loads exactly when its content reads as operations, and a successful load carries the given path and the operations of the file's document |
| Leaf.FromFileStampsPath | src/leaf.rs:41-56 | `path()` of a loaded leaf is the path it was loaded from |
| Leaf.FromFileOfWrittenFile | src/leaf.rs:45-57 | Loading a path whose file holds a written operation map gives exactly those operations at that path |
| Leaf.Here | src/leaf.rs:33-35 | `here` is loading `./fern.yaml` (so it has every property of `FromFile`), fails with "no fern.yaml here" when that file is missing, and its commands run in `.` |
| Leaf.Get | src/leaf.rs:71 | Looking up an operation gives its steps, or the empty default when the file does not mention it (never an error) |
| Leaf.Operations | src/leaf.rs:59-68 | An operation is advertised exactly when looking it up gives non-empty steps; only keys of the file are advertised |
| Leaf.Run | src/leaf.rs:70-79 | A leaf without a parent directory runs nothing and fails; otherwise every attempted command is the operation's next step, run in the parent of the leaf's path; a success means every step was attempted, a failure means at least one was; an absent operation is a no-op success |
| Leaf.RunLoadedLeaf | src/leaf.rs:70-79 | A loaded leaf runs the operation's steps in its file's directory, up to and including the first failing one, and fails with that command's error |
| Leaf.RunLoadedLeafSucceeds | src/leaf.rs:70-79 | A loaded leaf whose commands all succeed runs every step of the operation, in order, in its file's directory, and succeeds |
| Leaf.FindFernFiles | src/leaf.rs:82-94 | Every discovered path has the file name `fern.yaml`, and there are no more of them than walk items |
| Leaf.FindFernFilesAppend | src/leaf.rs:85-91 | Over an error-free walk, discovery keeps walk order: discovering a walk in two parts gives the two results concatenated |
| Leaf.FindFernFilesStopsAtError | src/leaf.rs:85 | Nothing that comes after a walk error is discovered |
| Leaf.FindFernFilesSingle | src/leaf.rs:86-90 | One entry is kept exactly when its file name is `fern.yaml` |
| Leaf.FindFernFilesMembership | src/leaf.rs:82-94 | A path is discovered exactly when an entry with that path and the name `fern.yaml` comes before the first walk error |
| Leaf.LoadAll | src/leaf.rs:22-25 | Loading a list of paths succeeds exactly when every path loads; it then gives each path's leaf, in order |
| Leaf.LoadAllFirstFailure | src/leaf.rs:23-25 | If file k is the first that fails to load, loading stops with file k's error |
| Leaf.AllLeaves | src/leaf.rs:21-31 | With no discovered file the result is "no fern.yaml files"; it succeeds exactly when files were found and all load; leaf i is then what loading discovered path i gives, so the leaves come in discovery order with the discovered paths |
| Leaf.AllLeavesFirstFailure | src/leaf.rs:21-31 | If discovered file k is the first that fails to load, `all_leaves` fails with file k's error |
| Leaf.ParsesCorrectFile | src/leaf.rs:100-113 | `fmt: Something` and `build: Fancy` load, and both operations are advertised |
| Leaf.ReportsReadErrors | src/leaf.rs:115-134 | A file the YAML reader rejects (the test's `has no value:` line continuing a plain scalar is a syntax error), and a document with `fmt: 12`, both fail with "There was an error when reading the file" |
| Leaf.NullValueFails | src/leaf.rs:37-39 | Any mapping in which some key's value is null fails with the fixed read error |
| Arguments.Subcommand | src/arguments.rs:30 | The subcommand is the first argument exactly when that argument does not start with `-`; it is removed from the remaining arguments |
| Arguments.Opts | src/arguments.rs:4-13 | The depth is `Here` exactly when the next argument is `here`; quiet holds exactly when `-q` or `--quiet` is present |
| Arguments.Style | src/arguments.rs:15-21 | The style is porcelain exactly when `-p` or `--porcelain` is present |
| Arguments.Parse | src/arguments.rs:23-44 | The full decision table in terms of the raw arguments: version flag anywhere wins; no subcommand or `help` gives help; `leaves` and `list` carry the style; `seed` carries the next free argument or none; every other free name becomes that operation, with its depth and quiet options |
| Arguments.VersionWins | src/arguments.rs:26-28 | `-v` or `--version` at any position yields `Version` |
| Arguments.AnyNameIsAnOperation | src/arguments.rs:39 | Any free, non-reserved name becomes an operation of exactly that name; there is no fixed set of operations |
| Arguments.CommandLineExamples | tests/custom_commands.rs:6-11 | The argument lists of the command-line tests parse as expected, including `run --here`, which runs `run` recursively |
| Legacy.FieldOr | src/main.rs:57-64 | An absent fixed key gives empty steps; a present one gives what its value decodes to |
| Legacy.DecodeFolderConfig | src/main.rs:17-65 | A document reads exactly when it is a mapping and each fixed key is absent or decodes; each field then holds its key's steps, or the empty default when the key is missing |
| Legacy.Select | src/main.rs:118-124 | A missing subcommand, or a name other than the four fixed ones, selects empty steps |
| Legacy.MissingKeysRunNothing | src/main.rs:55-65 | A file that gives none of the four keys still reads, and every subcommand selects empty steps |
| Legacy.RunLegacy | src/main.rs:72-83 | The old runner attempts a prefix of the commands in order, in one working directory; it stops early only when a shell cannot be spawned |
| Legacy.RunLegacyIgnoresExitCodes | src/main.rs:72-83 | When every shell can be spawned, all commands run in order, whatever their exit codes, and the run completes |
| Legacy.RunLegacyStopsAtSpawnFailure | src/main.rs:72-83 | When the shell of command k is the first that cannot be spawned, commands 0..k are attempted in order and the run panics with "unable to run command" |
| Legacy.ShortCircuitDiffers | src/main.rs:73-82 | When both commands exit with code 1, `run_all` attempts only the first and the old runner attempts both |
| Legacy.FindAllLeafs | src/main.rs:85-101 | The old walker succeeds exactly when no item is a walk error or a file without a file name; every path it keeps is named `fern.yaml` |
| Legacy.FindAllLeafsAppend | src/main.rs:87-98 | The old walker keeps walk order: walking two parts gives the two results concatenated |
| Legacy.FindAllLeafsSingle | src/main.rs:88-97 | One harmless item is kept exactly when it is a non-directory named `fern.yaml` |
| Legacy.DirectoriesDiffer | src/main.rs:89-91 | A directory named `fern.yaml` is kept by `find_fern_files` but skipped by `find_all_leafs` |
| Legacy.LoadFolder | src/main.rs:114-116 | A file that cannot be opened panics; an openable file without a parent panics with `NoParent`; an openable document with a parent whose configuration decodes loads, yielding its parent directory and its decoded configuration |
| Legacy.RunLeaves | src/main.rs:113-127 | If the first leaf fails to load, the loop ends with its panic and runs nothing; a completed loop means every leaf loaded |
| Legacy.RunLeavesStopsAtLoadFailure | src/main.rs:113-127 | If leaf k is the first that fails to load and the leaves before it spawn every shell, exactly the planned commands of leaves 0..k-1 run and the loop ends with leaf k's panic, before any of its commands |
| Legacy.RunLeavesStopsAtSpawnFailure | src/main.rs:113-127 | If the leaves before leaf m load and spawn every shell, and leaf m loads but its own run panics, the planned commands of leaves 0..m-1 run, then what leaf m's run attempted (commands 0..k, for its first unspawnable shell k), and the loop panics with "unable to run command" |
| Legacy.RunLeavesFollowsPlan | src/main.rs:111-127 | When every leaf loads and every shell can be spawned, the leaves run one after another in discovery order, each in its file's parent directory, and every selected command runs |
| Legacy.Main | src/main.rs:103-128 | A walk that panics runs nothing; a completed run means the walk succeeded and every leaf loaded |
| Legacy.MainRunsLeavesInOrder | src/main.rs:111-127 | The whole old program runs exactly the planned commands, leaf by leaf in discovery order |

## Left out

- Spawning processes (`sh -c`, `.status()`, `.output()`): the shell is the oracle `Shell.Oracle`. Inheriting or printing a child's output is not modelled, including the old runner's printing of captured stdout.
- The YAML reader (`serde_yaml::from_reader`, `deserialize_any`, `#[serde(flatten)]`): a document is given as a `Yaml.Value`. Syntax errors, line and column positions, duplicate keys, empty documents and tags are not modelled. A reader error is the `Unparsable` content.
- How the YAML library reads a sequence element when a string is asked for: the model treats every element that is not `Str` as "not a string". Reading straight from YAML, as src/main.rs:116 does, can read a plain `- 12` as the string "12"; the old program's loading does not model that.
- The library's rejection of a sequence the visitor did not read to its end is modelled for leaf files (`Leaf.ReadToEnd`, through the buffered values behind the flattened map at src/leaf.rs:13).
- Legacy.DecodeFolderConfig: does not model that rejection, nor the reading of non-string scalars as strings, because the old program's reader is the YAML library itself and its handling of both is not part of this model.
- Error causes: an error keeps only the context text that anyhow displays. The YAML error behind "There was an error when reading the file" is not kept.
- Directory walking and `.gitignore` rules (the `ignore` crate): the walk is a given sequence of entries and errors. The old walker's `metadata()` call is assumed to succeed.
- The argument library: it is modelled by the two assumptions stated above. In the old program, clap rejects unknown subcommands before `main`'s dispatch, so only a missing subcommand reaches its default arm. The model keeps the default arm for any name.
- The execution engine: choosing between `here` and `all_leaves`, the `quiet` policy, the "no files found" printing, and the listing and printing of leaves and operations. That code is not part of this model.
- src/seed.rs: it reads a configuration file and writes a new `fern.yaml`. That is I/O around a single map lookup.
- `HashMap` and `HashSet` iteration order: the model uses Dafny `map` and `set`, which have no order.
- Panics in src/main.rs (`unwrap`, `expect`): each becomes a `Legacy.Panic` outcome. Panic messages are not modelled.
- Process exit codes are unbounded integers. The range an operating system actually produces is not modelled.
