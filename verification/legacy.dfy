/**
  The earlier iteration of the program: a file has four fixed operations,
  the subcommand picks one of them, and every leaf found by the walk runs
  that operation's commands. Its step runner ignores exit codes, and its
  failures are panics that end the whole program.
*/
module Legacy {
  import opened Wrappers
  import opened Yaml
  import opened Paths
  import opened Shell
  import opened Steps
  import opened Leaf

  /** Why the program panicked. */
  datatype Panic =
    /** A walk item was an error. */
    | WalkFailed
    /** A walked file's path has no file name. */
    | NoFileName
    /** A discovered file could not be opened. */
    | CannotOpen
    /** A discovered file's path has no parent. */
    | NoParent
    /** A discovered file is not a valid configuration. */
    | CannotParse
    /** A shell could not be started: "unable to run command". */
    | CannotSpawn

  /** The fixed operations of a folder's file, each empty unless the file gives it. */
  datatype FolderConfig = FolderConfig(fmt: Steps, build: Steps, test: Steps, check: Steps)

  /** The steps of one fixed key: the default when the file omits it, else what the value decodes to. */
  function FieldOr(entries: map<string, Value>, key: string): (r: Option<Steps>)
    ensures key !in entries ==> r == Some(Default())
    ensures key in entries ==> r == Decode(entries[key])
  {
    if key in entries then Decode(entries[key]) else Some(Default())
  }

  /**
    `FolderConfig`'s derived decoding: the document must be a mapping; each
    of the four keys defaults to empty steps when absent and must decode
    when present; other keys are ignored.
  */
  function DecodeFolderConfig(v: Value): (r: Option<FolderConfig>)
    ensures r.Some? <==> v.Mapping? && forall key :: key in Fixed ==> FieldOr(v.entries, key).Some?
    ensures r.Some? ==> forall key :: key in Fixed ==> FieldOr(v.entries, key) == Some(Select(r.value, Some(key)))
  {
    match v
    case Mapping(entries) =>
      var fmt := FieldOr(entries, "fmt");
      var build := FieldOr(entries, "build");
      var test := FieldOr(entries, "test");
      var check := FieldOr(entries, "check");
      if fmt.Some? && build.Some? && test.Some? && check.Some? then
        Some(FolderConfig(fmt.value, build.value, test.value, check.value))
      else
        None
    case _ => None
  }

  /** The subcommands the program declares, one per field. */
  const Fixed: set<string> := {"fmt", "build", "test", "check"}

  /** The steps for the subcommand: the field of the same name; any other name, or none, selects no steps. */
  function Select(config: FolderConfig, subcommand: Option<string>): (r: Steps)
    ensures subcommand.None? || subcommand.value !in Fixed ==> r == Default()
  {
    match subcommand
    case Some("fmt") => config.fmt
    case Some("build") => config.build
    case Some("test") => config.test
    case Some("check") => config.check
    case _ => Default()
  }

  /** A file that leaves out all four keys runs nothing whatever the subcommand. */
  lemma MissingKeysRunNothing(entries: map<string, Value>, subcommand: Option<string>)
    requires forall key :: key in Fixed ==> key !in entries
    ensures DecodeFolderConfig(Mapping(entries)).Some?
    ensures Select(DecodeFolderConfig(Mapping(entries)).value, subcommand) == Default()
  {
    assert "fmt" in Fixed && "build" in Fixed && "test" in Fixed && "check" in Fixed;
  }

  /**
    `run`: run each command in `cwd`, in order; the exit status is ignored,
    and only a command whose shell cannot be spawned stops the run.
  */
  function RunLegacy(s: Steps, cwd: Path, shell: Oracle, past: seq<Invocation>): (r: Attempts<Panic>)
    ensures |r.trace| <= |s.values|
    ensures forall i :: 0 <= i < |r.trace| ==> r.trace[i] == Invocation(cwd, s.values[i])
    ensures r.outcome.Pass? ==> |r.trace| == |s.values|
    ensures r.outcome.Fail? ==> |r.trace| > 0 && r.outcome.error == CannotSpawn
    decreases |s.values|
  {
    if |s.values| == 0 then Attempts([], Pass)
    else
      var inv := Invocation(cwd, s.values[0]);
      match shell(past, inv)
      case SpawnFailed(_) => Attempts([inv], Fail(CannotSpawn))
      case Exited(_) =>
        var rest := RunLegacy(Steps(s.values[1..]), cwd, shell, past + [inv]);
        Attempts([inv] + rest.trace, rest.outcome)
  }

  /**
    Whatever the exit codes, when every shell can be spawned the old runner
    runs all commands, in order, and completes.
  */
  lemma {:induction false} RunLegacyIgnoresExitCodes(s: Steps, cwd: Path, shell: Oracle, past: seq<Invocation>)
    requires forall i :: 0 <= i < |s.values| ==> ReplyAt(shell, past, Invocations(cwd, s.values), i).Exited?
    ensures RunLegacy(s, cwd, shell, past) == Attempts(Invocations(cwd, s.values), Pass)
    decreases |s.values|
  {
    if |s.values| > 0 {
      var inv := Invocation(cwd, s.values[0]);
      var tail := Steps(s.values[1..]);
      TailReplies(s, cwd, shell, past);
      RunLegacyIgnoresExitCodes(tail, cwd, shell, past + [inv]);
      InvocationsTail(cwd, s.values);
    }
  }

  /**
    When the shell of command `k` is the first that cannot be spawned, the
    old runner attempts commands `0..k` in order and then panics.
  */
  lemma {:induction false} RunLegacyStopsAtSpawnFailure(s: Steps, cwd: Path, shell: Oracle, past: seq<Invocation>, k: nat)
    requires k < |s.values|
    requires forall i :: 0 <= i < k ==> ReplyAt(shell, past, Invocations(cwd, s.values), i).Exited?
    requires ReplyAt(shell, past, Invocations(cwd, s.values), k).SpawnFailed?
    ensures RunLegacy(s, cwd, shell, past) == Attempts(Invocations(cwd, s.values[..k + 1]), Fail(CannotSpawn))
    decreases k
  {
    var inv := Invocation(cwd, s.values[0]);
    TailReplies(s, cwd, shell, past);
    if k == 0 {
      assert Invocations(cwd, s.values[..1]) == [inv];
    } else {
      var tail := Steps(s.values[1..]);
      var plan := Invocations(cwd, s.values);
      var tailPlan := Invocations(cwd, tail.values);
      assert forall i :: 0 <= i < k - 1 ==> ReplyAt(shell, past + [inv], tailPlan, i).Exited? by {
        forall i | 0 <= i < k - 1
          ensures ReplyAt(shell, past + [inv], tailPlan, i).Exited?
        {
          assert ReplyAt(shell, past + [inv], tailPlan, i) == ReplyAt(shell, past, plan, i + 1);
        }
      }
      assert ReplyAt(shell, past + [inv], tailPlan, k - 1) == ReplyAt(shell, past, plan, k);
      RunLegacyStopsAtSpawnFailure(tail, cwd, shell, past + [inv], k - 1);
      var rest := RunLegacy(tail, cwd, shell, past + [inv]);
      assert RunLegacy(s, cwd, shell, past) == Attempts([inv] + rest.trace, rest.outcome);
      assert tail.values[..k] == s.values[1..k + 1];
      InvocationsTail(cwd, s.values[..k + 1]);
    }
  }

  /**
    Two commands whose shells both exit with code 1: the current runner
    stops after the first, the old one runs both.
  */
  lemma ShortCircuitDiffers(cwd: Path, a: string, b: string)
    ensures var shell: Oracle := (past, inv) => Exited(Some(1));
      && RunAll(Steps([a, b]), cwd, shell, []).trace == [Invocation(cwd, a)]
      && RunLegacy(Steps([a, b]), cwd, shell, []).trace == [Invocation(cwd, a), Invocation(cwd, b)]
  {
    var shell: Oracle := (past, inv) => Exited(Some(1));
    assert [a, b][1..] == [b];
    assert RunLegacy(Steps([b]), cwd, shell, [Invocation(cwd, a)]).trace == [Invocation(cwd, b)];
  }

  /** A walk item that makes `find_all_leafs` panic. */
  predicate Fatal(item: WalkItem) {
    item.WalkError? || (!item.isDir && FileName(item.path).None?)
  }

  /** A walk item `find_all_leafs` keeps: a file, not a directory, named `fern.yaml`. */
  predicate IsLeafFile(item: WalkItem) {
    item.Entry? && !item.isDir && FileName(item.path) == Some(FernFile)
  }

  /** What one harmless walk item contributes: its path when it is a leaf file. */
  function Kept(item: WalkItem): seq<Path> {
    if IsLeafFile(item) then [item.path] else []
  }

  /**
    `find_all_leafs`: the paths of the non-directory entries named
    `fern.yaml`, in walk order; a walk error, or a file without a file
    name, panics.
  */
  function FindAllLeafs(walk: seq<WalkItem>): (r: Result<seq<Path>, Panic>)
    ensures r.Success? <==> forall i :: 0 <= i < |walk| ==> !Fatal(walk[i])
    ensures r.Success? ==> |r.value| <= |walk| && forall i :: 0 <= i < |r.value| ==> FileName(r.value[i]) == Some(FernFile)
  {
    if |walk| == 0 then Success([])
    else if Fatal(walk[0]) then Failure(if walk[0].WalkError? then WalkFailed else NoFileName)
    else
      match FindAllLeafs(walk[1..])
      case Failure(p) => Failure(p)
      case Success(rest) => Success(Kept(walk[0]) + rest)
  }

  /** On a walk without panics, discovery of two parts is the discovery of each, in order. */
  lemma {:induction false} FindAllLeafsAppend(a: seq<WalkItem>, b: seq<WalkItem>)
    requires FindAllLeafs(a).Success? && FindAllLeafs(b).Success?
    ensures FindAllLeafs(a + b) == Success(FindAllLeafs(a).value + FindAllLeafs(b).value)
    decreases |a|
  {
    if |a| == 0 {
      assert a + b == b;
      assert FindAllLeafs(a).value + FindAllLeafs(b).value == FindAllLeafs(b).value;
    } else {
      assert (a + b)[0] == a[0] && (a + b)[1..] == a[1..] + b;
      FindAllLeafsAppend(a[1..], b);
      var x, y := FindAllLeafs(a[1..]).value, FindAllLeafs(b).value;
      assert Kept(a[0]) + (x + y) == (Kept(a[0]) + x) + y;
    }
  }

  /** A single harmless item is kept exactly when it is a file named `fern.yaml`; directories never are. */
  lemma FindAllLeafsSingle(item: WalkItem)
    requires !Fatal(item)
    ensures FindAllLeafs([item]) == Success(if IsLeafFile(item) then [item.path] else [])
  {
    assert [item][1..] == [];
    if IsLeafFile(item) {
      assert [item.path] + [] == [item.path];
    }
  }

  /** A directory named `fern.yaml` is discovered by the current walker but not by the old one. */
  lemma DirectoriesDiffer(dir: Path)
    ensures var item := Entry(Join(dir, FernFile), true);
      FindFernFiles([item]) == [Join(dir, FernFile)] && FindAllLeafs([item]) == Success([])
  {
    ParentOfJoin(dir, FernFile);
  }

  /**
    Opening, locating and parsing one discovered file, in the order the
    program does it: open, parent directory, then parse.
  */
  function LoadFolder(path: Path, fs: FileSystem): (r: Result<(Path, FolderConfig), Panic>)
    ensures r.Success? ==> Parent(path) == Some(r.value.0)
    ensures r.Success? ==> (path in fs.files && fs.files[path].Document?
      && DecodeFolderConfig(fs.files[path].value) == Some(r.value.1))
    ensures (path !in fs.files || fs.files[path].Unopenable?) ==> r == Failure(CannotOpen)
    ensures (path in fs.files && fs.files[path].Document? && Parent(path).Some?
      && DecodeFolderConfig(fs.files[path].value).Some?) ==> r.Success?
    ensures (path in fs.files && !fs.files[path].Unopenable? && Parent(path).None?) ==> r == Failure(NoParent)
  {
    if path !in fs.files || fs.files[path].Unopenable? then Failure(CannotOpen)
    else
      match Parent(path)
      case None => Failure(NoParent)
      case Some(dir) =>
        match fs.files[path]
        case Document(v) =>
          (match DecodeFolderConfig(v)
           case Some(config) => Success((dir, config))
           case None => Failure(CannotParse))
        case _ => Failure(CannotParse)
  }

  /**
    The loop of `main`: each discovered leaf in turn runs the selected
    steps in its own directory; a panic ends everything.
  */
  function RunLeaves(paths: seq<Path>, subcommand: Option<string>, fs: FileSystem, shell: Oracle, past: seq<Invocation>)
    : (r: Attempts<Panic>)
    ensures |paths| > 0 && LoadFolder(paths[0], fs).Failure? ==> r == Attempts([], Fail(LoadFolder(paths[0], fs).error))
    ensures r.outcome.Pass? ==> AllLoad(paths, fs)
    decreases |paths|
  {
    if |paths| == 0 then Attempts([], Pass)
    else
      match LoadFolder(paths[0], fs)
      case Failure(p) => Attempts([], Fail(p))
      case Success((dir, config)) =>
        var first := RunLegacy(Select(config, subcommand), dir, shell, past);
        if first.outcome.Fail? then first
        else
          var rest := RunLeaves(paths[1..], subcommand, fs, shell, past + first.trace);
          Attempts(first.trace + rest.trace, rest.outcome)
  }

  /** Whether every path loads as a folder configuration. */
  predicate AllLoad(paths: seq<Path>, fs: FileSystem) {
    forall i :: 0 <= i < |paths| ==> LoadFolder(paths[i], fs).Success?
  }

  /**
    The commands the loop would attempt if nothing panicked: for each leaf
    in discovery order, its selected steps in its own directory.
  */
  function Plan(paths: seq<Path>, subcommand: Option<string>, fs: FileSystem): seq<Invocation>
    requires AllLoad(paths, fs)
  {
    if |paths| == 0 then []
    else
      var loaded := LoadFolder(paths[0], fs).value;
      Invocations(loaded.0, Select(loaded.1, subcommand).values) + Plan(paths[1..], subcommand, fs)
  }

  /**
    When every leaf loads and every shell can be spawned, the leaves run one
    after another in discovery order, each in its own directory, and every
    selected command runs whatever its exit code.
  */
  lemma {:induction false} RunLeavesFollowsPlan(paths: seq<Path>, subcommand: Option<string>, fs: FileSystem, shell: Oracle, past: seq<Invocation>)
    requires AllLoad(paths, fs)
    requires forall j :: 0 <= j < |Plan(paths, subcommand, fs)| ==> ReplyAt(shell, past, Plan(paths, subcommand, fs), j).Exited?
    ensures RunLeaves(paths, subcommand, fs, shell, past) == Attempts(Plan(paths, subcommand, fs), Pass)
    decreases |paths|
  {
    if |paths| > 0 {
      var loaded := LoadFolder(paths[0], fs).value;
      var steps := Select(loaded.1, subcommand);
      var head := Invocations(loaded.0, steps.values);
      var tail := Plan(paths[1..], subcommand, fs);
      assert AllLoad(paths[1..], fs) by {
        forall i | 0 <= i < |paths| - 1
          ensures LoadFolder(paths[1..][i], fs).Success?
        {
          assert paths[1..][i] == paths[i + 1];
        }
      }
      assert Plan(paths, subcommand, fs) == head + tail;
      ReplyAtSplit(shell, past, head, tail);
      RunLegacyIgnoresExitCodes(steps, loaded.0, shell, past);
      RunLeavesFollowsPlan(paths[1..], subcommand, fs, shell, past + head);
    }
  }

  /** The plan of the first `k + 1` leaves is the first leaf's commands, then the plan of the next `k`. */
  lemma PlanPrefix(paths: seq<Path>, subcommand: Option<string>, fs: FileSystem, k: nat)
    requires 0 < k <= |paths| && AllLoad(paths[..k], fs)
    ensures AllLoad(paths[1..][..k - 1], fs)
    ensures var loaded := LoadFolder(paths[0], fs).value;
      Plan(paths[..k], subcommand, fs)
      == Invocations(loaded.0, Select(loaded.1, subcommand).values) + Plan(paths[1..][..k - 1], subcommand, fs)
  {
    assert paths[..k][0] == paths[0];
    assert paths[..k][1..] == paths[1..][..k - 1];
  }

  /**
    When leaf `k` is the first that fails to load and the leaves before it
    run without a spawn failure, the loop runs exactly those leaves'
    commands and then ends with leaf `k`'s panic, before any of its
    commands.
  */
  lemma {:induction false} RunLeavesStopsAtLoadFailure(paths: seq<Path>, subcommand: Option<string>, fs: FileSystem, shell: Oracle, past: seq<Invocation>, k: nat)
    requires k < |paths| && AllLoad(paths[..k], fs) && LoadFolder(paths[k], fs).Failure?
    requires var plan := Plan(paths[..k], subcommand, fs);
      forall j :: 0 <= j < |plan| ==> ReplyAt(shell, past, plan, j).Exited?
    ensures RunLeaves(paths, subcommand, fs, shell, past)
         == Attempts(Plan(paths[..k], subcommand, fs), Fail(LoadFolder(paths[k], fs).error))
    decreases k
  {
    if k == 0 {
      assert paths[..0] == [];
    } else {
      PlanShift(paths, subcommand, fs, shell, past, k);
      var first := LoadFolder(paths[0], fs).value;
      var head := Invocations(first.0, Select(first.1, subcommand).values);
      RunLeavesStopsAtLoadFailure(paths[1..], subcommand, fs, shell, past + head, k - 1);
      RunLeavesAfterFirst(paths, subcommand, fs, shell, past);
    }
  }

  /**
    When the leaves before leaf `m` load and spawn every shell, and leaf
    `m` loads but its own run panics, the loop runs the plan of leaves
    `0..m-1`, then what leaf `m`'s run attempted, and panics with it.
    With `RunLegacyStopsAtSpawnFailure` this is: commands `0..k` of leaf
    `m`, where `k` is its first command whose shell cannot be spawned.
  */
  lemma {:induction false} RunLeavesStopsAtSpawnFailure(paths: seq<Path>, subcommand: Option<string>, fs: FileSystem, shell: Oracle, past: seq<Invocation>, m: nat)
    requires m < |paths| && AllLoad(paths[..m], fs) && LoadFolder(paths[m], fs).Success?
    requires var before := Plan(paths[..m], subcommand, fs);
      forall j :: 0 <= j < |before| ==> ReplyAt(shell, past, before, j).Exited?
    requires var loaded := LoadFolder(paths[m], fs).value;
      RunLegacy(Select(loaded.1, subcommand), loaded.0, shell, past + Plan(paths[..m], subcommand, fs)).outcome.Fail?
    ensures var loaded := LoadFolder(paths[m], fs).value;
      var own := RunLegacy(Select(loaded.1, subcommand), loaded.0, shell, past + Plan(paths[..m], subcommand, fs));
      RunLeaves(paths, subcommand, fs, shell, past) == Attempts(Plan(paths[..m], subcommand, fs) + own.trace, Fail(CannotSpawn))
    decreases m
  {
    var loaded := LoadFolder(paths[m], fs).value;
    var own := RunLegacy(Select(loaded.1, subcommand), loaded.0, shell, past + Plan(paths[..m], subcommand, fs));
    if m == 0 {
      assert paths[..0] == [];
      assert past + [] == past;
      assert [] + own.trace == own.trace;
    } else {
      PlanShift(paths, subcommand, fs, shell, past, m);
      var first := LoadFolder(paths[0], fs).value;
      var head := Invocations(first.0, Select(first.1, subcommand).values);
      var tail := Plan(paths[1..][..m - 1], subcommand, fs);
      RunLeavesStopsAtSpawnFailure(paths[1..], subcommand, fs, shell, past + head, m - 1);
      RunLeavesAfterFirst(paths, subcommand, fs, shell, past);
      ConcatAssoc(head, tail, own.trace);
    }
  }

  /**
    The step of the inductions over leaves: when the first `m` leaves load
    and spawn every shell, the first leaf completes with its own commands,
    and the next `m - 1` leaves meet the same conditions after it.
  */
  lemma PlanShift(paths: seq<Path>, subcommand: Option<string>, fs: FileSystem, shell: Oracle, past: seq<Invocation>, m: nat)
    requires 0 < m < |paths| && AllLoad(paths[..m], fs)
    requires var before := Plan(paths[..m], subcommand, fs);
      forall j :: 0 <= j < |before| ==> ReplyAt(shell, past, before, j).Exited?
    ensures LoadFolder(paths[0], fs).Success?
    ensures AllLoad(paths[1..][..m - 1], fs) && paths[1..][m - 1] == paths[m]
    ensures var first := LoadFolder(paths[0], fs).value;
      var head := Invocations(first.0, Select(first.1, subcommand).values);
      var tail := Plan(paths[1..][..m - 1], subcommand, fs);
      && RunLegacy(Select(first.1, subcommand), first.0, shell, past) == Attempts(head, Pass)
      && Plan(paths[..m], subcommand, fs) == head + tail
      && past + Plan(paths[..m], subcommand, fs) == (past + head) + tail
      && forall j :: 0 <= j < |tail| ==> ReplyAt(shell, past + head, tail, j).Exited?
  {
    assert LoadFolder(paths[..m][0], fs).Success?;
    assert paths[..m][0] == paths[0];
    var first := LoadFolder(paths[0], fs).value;
    var firstSteps := Select(first.1, subcommand);
    var head := Invocations(first.0, firstSteps.values);
    PlanPrefix(paths, subcommand, fs, m);
    var tail := Plan(paths[1..][..m - 1], subcommand, fs);
    var before := Plan(paths[..m], subcommand, fs);
    ReplyAtSplit(shell, past, head, tail);
    forall j | 0 <= j < |head|
      ensures ReplyAt(shell, past, head, j).Exited?
    {
      assert ReplyAt(shell, past, before, j) == ReplyAt(shell, past, head, j);
    }
    forall j | 0 <= j < |tail|
      ensures ReplyAt(shell, past + head, tail, j).Exited?
    {
      assert ReplyAt(shell, past, before, |head| + j) == ReplyAt(shell, past + head, tail, j);
    }
    RunLegacyIgnoresExitCodes(firstSteps, first.0, shell, past);
    assert paths[1..][m - 1] == paths[m];
    ConcatAssoc(past, head, tail);
  }

  /** Concatenation regroups freely. */
  lemma ConcatAssoc<T>(a: seq<T>, b: seq<T>, c: seq<T>)
    ensures a + (b + c) == (a + b) + c
  {
  }

  /** A first leaf that loads and completes is followed by the run of the remaining leaves. */
  lemma RunLeavesAfterFirst(paths: seq<Path>, subcommand: Option<string>, fs: FileSystem, shell: Oracle, past: seq<Invocation>)
    requires |paths| > 0 && LoadFolder(paths[0], fs).Success?
    requires var loaded := LoadFolder(paths[0], fs).value;
      RunLegacy(Select(loaded.1, subcommand), loaded.0, shell, past).outcome.Pass?
    ensures var loaded := LoadFolder(paths[0], fs).value;
      var first := RunLegacy(Select(loaded.1, subcommand), loaded.0, shell, past);
      var rest := RunLeaves(paths[1..], subcommand, fs, shell, past + first.trace);
      RunLeaves(paths, subcommand, fs, shell, past) == Attempts(first.trace + rest.trace, rest.outcome)
  {
  }

  /**
    `main`, after the subcommand is known: discover the leaves, then run
    them. A walk that panics runs nothing.
  */
  function Main(subcommand: Option<string>, walk: seq<WalkItem>, fs: FileSystem, shell: Oracle): (r: Attempts<Panic>)
    ensures FindAllLeafs(walk).Failure? ==> r == Attempts([], Fail(FindAllLeafs(walk).error))
    ensures r.outcome.Pass? ==> FindAllLeafs(walk).Success? && AllLoad(FindAllLeafs(walk).value, fs)
  {
    match FindAllLeafs(walk)
    case Failure(p) => Attempts([], Fail(p))
    case Success(paths) => RunLeaves(paths, subcommand, fs, shell, [])
  }

  /**
    When the walk does not panic, every discovered leaf loads and every
    shell can be spawned, `main` runs each leaf's selected commands in
    discovery order, each in that leaf's directory, and completes.
  */
  lemma MainRunsLeavesInOrder(subcommand: Option<string>, walk: seq<WalkItem>, fs: FileSystem, shell: Oracle)
    requires FindAllLeafs(walk).Success? && AllLoad(FindAllLeafs(walk).value, fs)
    requires var plan := Plan(FindAllLeafs(walk).value, subcommand, fs);
      forall j :: 0 <= j < |plan| ==> ReplyAt(shell, [], plan, j).Exited?
    ensures Main(subcommand, walk, fs, shell) == Attempts(Plan(FindAllLeafs(walk).value, subcommand, fs), Pass)
  {
    RunLeavesFollowsPlan(FindAllLeafs(walk).value, subcommand, fs, shell, []);
  }
}
