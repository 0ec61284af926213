/**
  Filesystem paths as Rust's `std::path::Path` sees them after splitting into
  components: whether the path starts at the root, then the remaining
  components in order. A leading `.` is kept as written (the walker's root is
  `./`, so every discovered path starts with it). As in Rust's own component
  lists, `parts` holds no empty component and no `.` except in first
  position; `FileName` and `Parent` agree with Rust only on such lists.
*/
module Paths {
  import opened Wrappers

  datatype Path = Path(absolute: bool, parts: seq<string>)

  /** The fixed name of a task-definition file. */
  const FernFile: string := "fern.yaml"

  /** The path that no data was read from: `PathBuf::default()`. */
  const EmptyPath: Path := Path(false, [])

  /** The current directory, `.`. */
  const CurrentDir: Path := Path(false, ["."])

  /** The candidate file of the current directory, `./fern.yaml`. */
  const HerePath: Path := Path(false, [".", FernFile])

  /** `dir` with one more component at its end: `dir.join(name)`. */
  function Join(dir: Path, name: string): Path {
    Path(dir.absolute, dir.parts + [name])
  }

  /**
    `Path::parent`: the path without its last component, or none when there
    is no component left to remove (the root, or the empty path).
  */
  function Parent(p: Path): (r: Option<Path>)
    ensures r.None? <==> |p.parts| == 0
    ensures r.Some? ==> Join(r.value, p.parts[|p.parts| - 1]) == p
  {
    if |p.parts| == 0 then None else Some(Path(p.absolute, p.parts[..|p.parts| - 1]))
  }

  /**
    `Path::file_name`: the last component, unless there is none or it is
    `.` or `..`.
  */
  function FileName(p: Path): (r: Option<string>)
    ensures r.Some? ==> |p.parts| > 0 && r.value == p.parts[|p.parts| - 1]
    ensures r.None? <==> |p.parts| == 0 || p.parts[|p.parts| - 1] in {".", ".."}
  {
    if |p.parts| == 0 then None
    else
      var last := p.parts[|p.parts| - 1];
      if last == "." || last == ".." then None else Some(last)
  }

  /** Joining a name onto a directory and taking the parent gives the directory back. */
  lemma ParentOfJoin(dir: Path, name: string)
    ensures Parent(Join(dir, name)) == Some(dir)
    ensures name != "." && name != ".." ==> FileName(Join(dir, name)) == Some(name)
  {
    assert (dir.parts + [name])[..|dir.parts|] == dir.parts;
  }
}
