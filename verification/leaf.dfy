/**
  One task-definition file ("leaf"): its operations, each with its steps,
  and the path it was loaded from. Also the discovery of such files in a
  directory walk, and loading all of them.
*/
module Leaf {
  import opened Wrappers
  import opened Yaml
  import opened Paths
  import opened Shell
  import opened Errors
  import opened Types
  import opened Steps

  /** Operation name to steps, exactly the top-level keys of the file; and the file's path. */
  datatype Leaf = Leaf(custom: map<string, Steps>, path: Path)

  /**
    What opening and reading a file that exists yields: an OS error on
    open, text the YAML reader rejects, or a parsed document.
  */
  datatype Content = Unopenable(cause: string) | Unparsable | Document(value: Value)

  /** The files that exist, and what reading each yields. `path.exists()` is membership. */
  datatype FileSystem = FileSystem(files: map<Path, Content>)

  /** One item the directory walker yields: an entry, or an error. */
  datatype WalkItem = Entry(path: Path, isDir: bool) | WalkError

  // ---------------------------------------------------------------------------
  // Loading
  // ---------------------------------------------------------------------------

  /**
    The library's check after the visitor returns: a sequence must have been
    read to its end. The element the visitor failed to read as a string has
    been taken from the sequence already, so only elements after it are
    left unread.
  */
  predicate ReadToEnd(v: Value) {
    v.Sequence? ==> |StringPrefix(v.items)| + 1 >= |v.items|
  }

  /** Whether a value reads as steps in a file: the visitor accepts it and reads it to its end. */
  predicate ReadsAsSteps(v: Value) {
    Decode(v).Some? && ReadToEnd(v)
  }

  /**
    `from_yaml`: the document must be a mapping whose every value reads as
    steps; anything else fails with the fixed "error when reading" message.
    The path is left empty.
  */
  function FromYaml(v: Value): (r: Result<Leaf, Error>)
    ensures r.Success? <==> v.Mapping? && forall k :: k in v.entries ==> ReadsAsSteps(v.entries[k])
    ensures r.Failure? ==> r.error == ReadFailed
    ensures r.Success? ==> r.value.path == EmptyPath && r.value.custom.Keys == v.entries.Keys
    ensures r.Success? ==> forall k :: k in r.value.custom ==> Decode(v.entries[k]) == Some(r.value.custom[k])
  {
    match v
    case Mapping(entries) =>
      if forall k :: k in entries ==> ReadsAsSteps(entries[k]) then
        Success(Leaf(map k | k in entries :: Decode(entries[k]).value, EmptyPath))
      else
        Failure(ReadFailed)
    case _ => Failure(ReadFailed)
  }

  /**
    A sequence of strings followed by a non-string loads as those strings
    when the non-string is its last element, and fails to load when
    anything follows it.
  */
  lemma SequenceReadToEnd(key: string, values: seq<string>, rest: seq<Value>)
    requires |rest| > 0 && !rest[0].Str?
    ensures FromYaml(Mapping(map[key := Sequence(Strs(values) + rest)]))
         == if |rest| == 1 then Success(Leaf(map[key := Steps(values)], EmptyPath)) else Failure(ReadFailed)
  {
    StringPrefixOfStrs(values, rest);
    DecodeStringsThenOther(values, rest);
    var m := map[key := Sequence(Strs(values) + rest)];
    if |rest| == 1 {
      var r := FromYaml(Mapping(m));
      assert ReadsAsSteps(m[key]);
      assert r.Success?;
      assert r.value.custom == map[key := Steps(values)];
    } else {
      assert key in m && !ReadsAsSteps(m[key]);
    }
  }

  /** A leaf's operations written as a YAML mapping of sequences. */
  function ToYaml(custom: map<string, Steps>): Value {
    Mapping(map k | k in custom :: Encode(custom[k]))
  }

  /** Reading back the mapping `ToYaml` wrote gives the same operations, with an empty path. */
  lemma FromYamlToYaml(custom: map<string, Steps>)
    ensures FromYaml(ToYaml(custom)) == Success(Leaf(custom, EmptyPath))
  {
    var v := ToYaml(custom);
    forall k | k in custom
      ensures Decode(v.entries[k]) == Some(custom[k]) && ReadsAsSteps(v.entries[k])
    {
      DecodeEncode(custom[k]);
    }
    assert FromYaml(v).Success?;
    assert FromYaml(v).value.custom == custom;
  }

  /**
    `from_file`: a path that does not exist fails before anything is opened
    or read; otherwise an open error, a reader error or a shape error fails
    the load, and a successful load stamps `path` into the leaf.
  */
  function FromFile(path: Path, fs: FileSystem): (r: Result<Leaf, Error>)
    ensures path !in fs.files <==> r == Failure(NoFileHere)
    ensures path in fs.files && fs.files[path].Unopenable? ==> r == Failure(OpenFailed(fs.files[path].cause))
    ensures path in fs.files && fs.files[path].Unparsable? ==> r == Failure(ReadFailed)
    ensures r.Success? ==> r.value.path == path
    ensures r.Success? ==> (path in fs.files && fs.files[path].Document?
      && FromYaml(fs.files[path].value) == Success(Leaf(r.value.custom, EmptyPath)))
    ensures path in fs.files && fs.files[path].Document? ==> (r.Success? <==> FromYaml(fs.files[path].value).Success?)
    ensures path in fs.files && fs.files[path].Document? && r.Failure? ==> r.error == ReadFailed
  {
    if path !in fs.files then Failure(NoFileHere)
    else
      match fs.files[path]
      case Unopenable(cause) => Failure(OpenFailed(cause))
      case Unparsable => Failure(ReadFailed)
      case Document(v) =>
        match FromYaml(v)
        case Failure(e) => Failure(e)
        case Success(leaf) => Success(Leaf(leaf.custom, path))
  }

  /** `path()`: the path the leaf was loaded from. */
  function PathOf(l: Leaf): Path {
    l.path
  }

  /** A loaded leaf reports the very path it was loaded from. */
  lemma FromFileStampsPath(path: Path, fs: FileSystem)
    requires FromFile(path, fs).Success?
    ensures PathOf(FromFile(path, fs).value) == path
  {
  }

  /** Writing a mapping to a path and loading that path gives a leaf of those operations at that path. */
  lemma FromFileOfWrittenFile(path: Path, custom: map<string, Steps>, fs: FileSystem)
    requires path in fs.files && fs.files[path] == Document(ToYaml(custom))
    ensures FromFile(path, fs) == Success(Leaf(custom, path))
  {
    FromYamlToYaml(custom);
  }

  /**
    `here`: the leaf of the current directory, `./fern.yaml`; its commands
    run in `.`.
  */
  function Here(fs: FileSystem): (r: Result<Leaf, Error>)
    ensures r == FromFile(HerePath, fs)
    ensures HerePath !in fs.files ==> r == Failure(NoFileHere)
    ensures r.Success? ==> r.value.path == HerePath && Parent(r.value.path) == Some(CurrentDir)
  {
    assert HerePath.parts[..1] == CurrentDir.parts;
    FromFile(HerePath, fs)
  }

  // ---------------------------------------------------------------------------
  // Resolving and running operations
  // ---------------------------------------------------------------------------

  /** The steps of `op`; an operation the file does not mention has no steps (never an error). */
  function Get(l: Leaf, op: Operation): (r: Steps)
    ensures op.name in l.custom ==> r == l.custom[op.name]
    ensures op.name !in l.custom ==> r == Default()
  {
    if op.name in l.custom then l.custom[op.name] else Default()
  }

  /** `operations()`: the names whose steps are not empty. */
  function Operations(l: Leaf): (r: set<string>)
    ensures forall name :: name in r <==> Any(Get(l, Operation(name)))
    ensures r <= l.custom.Keys
  {
    set name | name in l.custom && Any(l.custom[name])
  }

  /**
    `run`: run the steps of `op` in the directory that holds the leaf's
    file; a leaf whose path has no parent runs nothing and fails.
  */
  function Run(l: Leaf, op: Operation, shell: Oracle, past: seq<Invocation>): (r: Attempts<Error>)
    ensures Parent(l.path).None? ==> r == Attempts([], Fail(NoParentDirectory))
    ensures Parent(l.path).Some? ==> forall i :: 0 <= i < |r.trace| ==> r.trace[i].cwd == Parent(l.path).value
    ensures |r.trace| <= |Get(l, op).values|
    ensures forall i :: 0 <= i < |r.trace| ==> r.trace[i].command == Get(l, op).values[i]
    ensures op.name !in l.custom && Parent(l.path).Some? ==> r == Attempts([], Pass)
    ensures r.outcome.Pass? ==> Parent(l.path).Some? && |r.trace| == |Get(l, op).values|
    ensures Parent(l.path).Some? && r.outcome.Fail? ==> |r.trace| > 0
  {
    var steps := Get(l, op);
    match Parent(l.path)
    case None => Attempts([], Fail(NoParentDirectory))
    case Some(cwd) => RunAll(steps, cwd, shell, past)
  }

  /**
    A loaded leaf runs every command of `op` in the parent of the path it
    was loaded from, in the order the file lists them, stopping at the
    first failure.
  */
  lemma {:induction false} RunLoadedLeaf(path: Path, fs: FileSystem, op: Operation, shell: Oracle, past: seq<Invocation>, k: nat)
    requires FromFile(path, fs).Success? && Parent(path).Some?
    requires var plan := Invocations(Parent(path).value, Get(FromFile(path, fs).value, op).values);
      k < |plan| && !Succeeded(ReplyAt(shell, past, plan, k))
      && forall i :: 0 <= i < k ==> Succeeded(ReplyAt(shell, past, plan, i))
    ensures var steps := Get(FromFile(path, fs).value, op);
      Run(FromFile(path, fs).value, op, shell, past).trace == Invocations(Parent(path).value, steps.values[..k + 1])
    ensures var steps := Get(FromFile(path, fs).value, op);
      var plan := Invocations(Parent(path).value, steps.values);
      Run(FromFile(path, fs).value, op, shell, past).outcome == Fail(FailureOf(steps.values[k], ReplyAt(shell, past, plan, k)).value)
  {
    var l := FromFile(path, fs).value;
    RunAllStopsAtFirstFailure(Get(l, op), Parent(path).value, shell, past, k);
  }

  /**
    A loaded leaf whose commands all succeed runs every command of `op`, in
    order, in the parent of the path it was loaded from, and succeeds.
  */
  lemma RunLoadedLeafSucceeds(path: Path, fs: FileSystem, op: Operation, shell: Oracle, past: seq<Invocation>)
    requires FromFile(path, fs).Success? && Parent(path).Some?
    requires var plan := Invocations(Parent(path).value, Get(FromFile(path, fs).value, op).values);
      forall i :: 0 <= i < |plan| ==> Succeeded(ReplyAt(shell, past, plan, i))
    ensures var steps := Get(FromFile(path, fs).value, op);
      Run(FromFile(path, fs).value, op, shell, past) == Attempts(Invocations(Parent(path).value, steps.values), Pass)
  {
    var l := FromFile(path, fs).value;
    RunAllRunsEverything(Get(l, op), Parent(path).value, shell, past);
  }

  // ---------------------------------------------------------------------------
  // Discovery
  // ---------------------------------------------------------------------------

  /** An entry the discovery keeps: its file name is `fern.yaml` (directories are not excluded). */
  predicate IsFern(item: WalkItem) {
    item.Entry? && FileName(item.path) == Some(FernFile)
  }

  /** Whether the walk yields no error. */
  predicate Clean(walk: seq<WalkItem>) {
    forall i :: 0 <= i < |walk| ==> walk[i].Entry?
  }

  /**
    `find_fern_files`: the paths of the entries named `fern.yaml`, in walk
    order, up to the first walk error, where the walk silently ends.
  */
  function FindFernFiles(walk: seq<WalkItem>): (r: seq<Path>)
    ensures |r| <= |walk|
    ensures forall i :: 0 <= i < |r| ==> FileName(r[i]) == Some(FernFile)
  {
    if |walk| == 0 || walk[0].WalkError? then []
    else if IsFern(walk[0]) then [walk[0].path] + FindFernFiles(walk[1..])
    else FindFernFiles(walk[1..])
  }

  /** Discovery over an error-free walk followed by more items is the discovery of each part, in order. */
  lemma {:induction false} FindFernFilesAppend(a: seq<WalkItem>, b: seq<WalkItem>)
    requires Clean(a)
    ensures FindFernFiles(a + b) == FindFernFiles(a) + FindFernFiles(b)
    decreases |a|
  {
    if |a| == 0 {
      assert a + b == b;
    } else {
      assert (a + b)[1..] == a[1..] + b;
      FindFernFilesAppend(a[1..], b);
    }
  }

  /** Nothing after a walk error is discovered. */
  lemma FindFernFilesStopsAtError(a: seq<WalkItem>, b: seq<WalkItem>)
    requires Clean(a)
    ensures FindFernFiles(a + [WalkError] + b) == FindFernFiles(a)
  {
    assert a + [WalkError] + b == a + ([WalkError] + b);
    FindFernFilesAppend(a, [WalkError] + b);
  }

  /** A single entry is discovered exactly when it is named `fern.yaml`. */
  lemma FindFernFilesSingle(item: WalkItem)
    ensures FindFernFiles([item]) == if IsFern(item) then [item.path] else []
  {
  }

  /** An entry in front of a walk leaves its cleanness unchanged. */
  lemma CleanCons(x: WalkItem, s: seq<WalkItem>)
    requires x.Entry?
    ensures Clean([x] + s) <==> Clean(s)
  {
    if Clean(s) {
      forall k | 0 <= k < |[x] + s|
        ensures ([x] + s)[k].Entry?
      {
        if k > 0 { assert ([x] + s)[k] == s[k - 1]; }
      }
    }
    if Clean([x] + s) {
      forall k | 0 <= k < |s|
        ensures s[k].Entry?
      {
        assert ([x] + s)[k + 1] == s[k];
      }
    }
  }

  /**
    A path is discovered exactly when an entry named `fern.yaml` with that
    path comes before the first walk error.
  */
  lemma {:induction false} FindFernFilesMembership(walk: seq<WalkItem>, p: Path)
    ensures p in FindFernFiles(walk) <==>
      exists i :: 0 <= i < |walk| && IsFern(walk[i]) && walk[i].path == p && Clean(walk[..i])
    decreases |walk|
  {
    if |walk| > 0 {
      FindFernFilesMembership(walk[1..], p);
      if walk[0].Entry? {
        forall i | 0 < i <= |walk|
          ensures Clean(walk[..i]) <==> Clean(walk[1..][..i - 1])
        {
          assert walk[..i] == [walk[0]] + walk[1..][..i - 1];
          CleanCons(walk[0], walk[1..][..i - 1]);
        }
        if exists i :: 0 <= i < |walk| && IsFern(walk[i]) && walk[i].path == p && Clean(walk[..i]) {
          var i :| 0 <= i < |walk| && IsFern(walk[i]) && walk[i].path == p && Clean(walk[..i]);
          if i > 0 {
            assert IsFern(walk[1..][i - 1]) && walk[1..][i - 1].path == p && Clean(walk[1..][..i - 1]);
          }
        }
        if exists j :: 0 <= j < |walk| - 1 && IsFern(walk[1..][j]) && walk[1..][j].path == p && Clean(walk[1..][..j]) {
          var j :| 0 <= j < |walk| - 1 && IsFern(walk[1..][j]) && walk[1..][j].path == p && Clean(walk[1..][..j]);
          assert IsFern(walk[j + 1]) && walk[j + 1].path == p && Clean(walk[..j + 1]);
        }
      } else {
        forall i | 0 < i < |walk|
          ensures !Clean(walk[..i])
        {
          assert walk[..i][0] == walk[0];
        }
      }
    }
  }

  /**
    Loading `paths` in order, failing with the first failure. This is the
    loop of `all_leaves`, before its emptiness check.
  */
  function LoadAll(paths: seq<Path>, fs: FileSystem): (r: Result<seq<Leaf>, Error>)
    ensures r.Success? <==> forall i :: 0 <= i < |paths| ==> FromFile(paths[i], fs).Success?
    ensures r.Success? ==> |r.value| == |paths|
    ensures r.Success? ==> forall i :: 0 <= i < |paths| ==> FromFile(paths[i], fs) == Success(r.value[i])
  {
    if |paths| == 0 then Success([])
    else
      match FromFile(paths[0], fs)
      case Failure(e) => Failure(e)
      case Success(leaf) =>
        match LoadAll(paths[1..], fs)
        case Failure(e) => Failure(e)
        case Success(leaves) => Success([leaf] + leaves)
  }

  /** When file `k` is the first that fails to load, loading stops there with its error. */
  lemma {:induction false} LoadAllFirstFailure(paths: seq<Path>, fs: FileSystem, k: nat)
    requires k < |paths| && FromFile(paths[k], fs).Failure?
    requires forall i :: 0 <= i < k ==> FromFile(paths[i], fs).Success?
    ensures LoadAll(paths, fs) == Failure(FromFile(paths[k], fs).error)
    decreases k
  {
    if k > 0 {
      LoadAllFirstFailure(paths[1..], fs, k - 1);
    }
  }

  /**
    `all_leaves`: load every discovered file in walk order; the first that
    fails to load ends the call with its error, and finding none at all is
    an error of its own.
  */
  function AllLeaves(walk: seq<WalkItem>, fs: FileSystem): (r: Result<seq<Leaf>, Error>)
    ensures FindFernFiles(walk) == [] ==> r == Failure(NoFilesAnywhere)
    ensures r.Success? <==> (FindFernFiles(walk) != []
      && forall i :: 0 <= i < |FindFernFiles(walk)| ==> FromFile(FindFernFiles(walk)[i], fs).Success?)
    ensures r.Success? ==> (|r.value| == |FindFernFiles(walk)|
      && (forall i :: 0 <= i < |r.value| ==> r.value[i].path == FindFernFiles(walk)[i])
      && forall i :: 0 <= i < |r.value| ==> FromFile(FindFernFiles(walk)[i], fs) == Success(r.value[i]))
  {
    var paths := FindFernFiles(walk);
    match LoadAll(paths, fs)
    case Failure(e) => Failure(e)
    case Success(leaves) => if |leaves| == 0 then Failure(NoFilesAnywhere) else Success(leaves)
  }

  /** When discovered file `k` is the first that fails to load, `all_leaves` reports its error. */
  lemma AllLeavesFirstFailure(walk: seq<WalkItem>, fs: FileSystem, k: nat)
    requires var paths := FindFernFiles(walk);
      k < |paths| && FromFile(paths[k], fs).Failure?
      && forall i :: 0 <= i < k ==> FromFile(paths[i], fs).Success?
    ensures AllLeaves(walk, fs) == Failure(FromFile(FindFernFiles(walk)[k], fs).error)
  {
    LoadAllFirstFailure(FindFernFiles(walk), fs, k);
  }

  // ---------------------------------------------------------------------------
  // The cases the unit tests pin down
  // ---------------------------------------------------------------------------

  /** `fmt: Something` and `build: Fancy` load, and both are advertised. */
  lemma ParsesCorrectFile()
    ensures var r := FromYaml(Mapping(map["fmt" := Str("Something"), "build" := Str("Fancy")]));
      r.Success? && "fmt" in Operations(r.value) && "build" in Operations(r.value)
  {
    var r := FromYaml(Mapping(map["fmt" := Str("Something"), "build" := Str("Fancy")]));
    assert Any(Get(r.value, Operation("fmt")));
    assert Any(Get(r.value, Operation("build")));
  }

  /**
    A file the YAML reader rejects, like the unit test's `has no value:` line
    that continues a plain scalar, and a document with `fmt: 12`, both fail
    with the fixed message.
  */
  lemma ReportsReadErrors(p: Path)
    ensures FromFile(p, FileSystem(map[p := Unparsable])) == Failure(ReadFailed)
    ensures FromYaml(Mapping(map["fmt" := Int(12)])) == Failure(ReadFailed)
    ensures Message(ReadFailed) == "There was an error when reading the file"
  {
    var number := map["fmt" := Int(12)];
    assert "fmt" in number && Decode(number["fmt"]).None?;
  }

  /** A document in which any key's value is null fails with the fixed message. */
  lemma NullValueFails(entries: map<string, Value>, key: string)
    requires key in entries && entries[key] == Null
    ensures FromYaml(Mapping(entries)) == Failure(ReadFailed)
  {
    assert Decode(entries[key]).None?;
  }
}
