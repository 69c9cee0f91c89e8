/** run: for each backend ("tupelo") in order, resolve its image, run every
    tester against it through runSingle, tear it down and clear the
    registry; then exit with the first non-zero status code. Building an
    image (`docker build -q`) is an oracle from build path to image id,
    None standing for a failed build (log.Fatalf). The outcomes of the
    engine for the j-th tester of the i-th backend are `engine(i, j)`. */
module Runner {
  import opened Wrappers
  import opened Container
  import opened LoadConfig
  import opened Version
  import opened Registry

  /** How the process ends. ConfigError and BuildError are log.Fatalf;
      NilTeardown is the nil-function panic when a group's StopFunc was never
      assigned. */
  datatype Exit =
    | Finished(code: int)
    | ConfigError(backend: string)
    | BuildError(path: string)
    | NilTeardown(backend: string)

  /** The process's exit status. */
  function ExitStatus(exit: Exit): int {
    match exit
    case Finished(code) => code
    case ConfigError(_) => 1
    case BuildError(_) => 1
    case NilTeardown(_) => 2
  }

  /** The result of resolving a config's image before it is run. */
  datatype Resolution = Resolved(config: ContainerConfig) | Fatal(exit: Exit)

  /** The build path used when no image is given. */
  function BuildPath(c: ContainerConfig): string {
    if c.build == "" then "." else c.build
  }

  /** A config without an image is built, from "." unless a build path is
      given, and runs the image built; one with an image keeps it. */
  function ResolveImage(c: ContainerConfig, build: string -> Option<string>): (r: Resolution)
    ensures c.image != "" ==> r == Resolved(c)
    ensures r.Fatal? <==> c.image == "" && build(BuildPath(c)).None?
    ensures r.Fatal? ==> r.exit == BuildError(BuildPath(c))
    ensures r.Resolved? && c.image == "" ==>
      r.config.build == BuildPath(c) && build(BuildPath(c)) == Some(r.config.image) &&
      r.config.(build := c.build, image := c.image) == c
  {
    if c.image != "" then Resolved(c)
    else
      var path := BuildPath(c);
      match build(path)
      case None => Fatal(BuildError(path))
      case Some(id) => Resolved(c.(build := path, image := id))
  }

  /** A backend is resolved like a tester, except that a docker-compose
      backend has no image to resolve, and naming one is a fatal error. */
  function ResolveBackend(c: ContainerConfig, build: string -> Option<string>): (r: Resolution)
    ensures r == Fatal(ConfigError(DisplayName(c))) <==> c.dockerCompose && c.image != ""
    ensures c.dockerCompose && c.image == "" ==> r == Resolved(c)
    ensures !c.dockerCompose ==> r == ResolveImage(c, build)
  {
    if c.dockerCompose then
      if c.image != "" then Fatal(ConfigError(DisplayName(c))) else Resolved(c)
    else ResolveImage(c, build)
  }

  /** One tester run: the tester as it was run (image resolved, connection
      variables injected) and runSingle's status code. */
  datatype TesterRun = TesterRun(tester: ContainerConfig, code: int)

  /** One backend group: the resolved backend, its tester runs in order,
      and the teardown called at its end (None when the group did not end). */
  datatype GroupRecord = GroupRecord(backend: ContainerConfig, runs: seq<TesterRun>, teardown: Option<StopHandle>)

  datatype RunResult = RunResult(groups: seq<GroupRecord>, exit: Exit)

  /** One step of a group: resolve the tester's image, then runSingle. */
  datatype Step = Aborted(path: string) | Ran(run: TesterRun, entries: map<string, string>, stop: Option<StopHandle>)

  function PairStep(tester: ContainerConfig, backend: ContainerConfig, entries: map<string, string>,
                    stop: Option<StopHandle>, e: Engine, build: string -> Option<string>): Step
  {
    match ResolveImage(tester, build)
    case Fatal(exit) => Aborted(BuildPath(tester))
    case Resolved(t) =>
      var l := LaunchBackend(entries, backend, stop, e);
      var run := if l.ready then Inject(t, l.entries, GetVersion(backend.image, e.versionOutput)) else t;
      Ran(TesterRun(run, PairCode(l.ready, e)), l.entries, l.stop)
  }

  /** The end of a group's tester loop: the runs made, the registry and
      StopFunc afterwards, and the build path that failed, if one did. */
  datatype GroupEnd = GroupEnd(runs: seq<TesterRun>, entries: map<string, string>, stop: Option<StopHandle>,
                               aborted: Option<string>)

  /** Testers j.. of group i, with the runs, registry and StopFunc so far. */
  function GroupFrom(testers: seq<ContainerConfig>, backend: ContainerConfig, i: nat, j: nat,
                     runs: seq<TesterRun>, entries: map<string, string>, stop: Option<StopHandle>,
                     build: string -> Option<string>, engine: (nat, nat) -> Engine): GroupEnd
    requires j <= |testers|
    decreases |testers| - j
  {
    if j == |testers| then GroupEnd(runs, entries, stop, None)
    else
      match PairStep(testers[j], backend, entries, stop, engine(i, j), build)
      case Aborted(path) => GroupEnd(runs, entries, stop, Some(path))
      case Ran(run, entries', stop') => GroupFrom(testers, backend, i, j + 1, runs + [run], entries', stop', build, engine)
  }

  /** A whole group: it starts with an empty registry and a nil StopFunc. */
  function Group(testers: seq<ContainerConfig>, backend: ContainerConfig, i: nat,
                 build: string -> Option<string>, engine: (nat, nat) -> Engine): GroupEnd
  {
    GroupFrom(testers, backend, i, 0, [], map[], None, build, engine)
  }

  function RunCodes(runs: seq<TesterRun>): (codes: seq<int>)
    ensures |codes| == |runs|
    ensures forall k :: 0 <= k < |runs| ==> codes[k] == runs[k].code
  {
    if runs == [] then [] else RunCodes(runs[..|runs| - 1]) + [runs[|runs| - 1].code]
  }

  /** The status codes of all groups, in the order they were appended. */
  function AllCodes(groups: seq<GroupRecord>): seq<int> {
    if groups == [] then [] else AllCodes(groups[..|groups| - 1]) + RunCodes(groups[|groups| - 1].runs)
  }

  /** The exit code chosen from the status codes: the first non-zero one,
      or 0. */
  function FirstNonZero(codes: seq<int>): int {
    if codes == [] then 0
    else if codes[0] != 0 then codes[0]
    else FirstNonZero(codes[1..])
  }

  /** Backends i.. with the groups recorded so far. */
  function RunFrom(cfg: Config, i: nat, groups: seq<GroupRecord>,
                   build: string -> Option<string>, engine: (nat, nat) -> Engine): RunResult
    requires i <= |cfg.tupelos|
    decreases |cfg.tupelos| - i
  {
    if i == |cfg.tupelos| then RunResult(groups, Finished(FirstNonZero(AllCodes(groups))))
    else
      match ResolveBackend(cfg.tupelos[i], build)
      case Fatal(exit) => RunResult(groups, exit)
      case Resolved(backend) =>
        var g := Group(cfg.testers, backend, i, build, engine);
        if g.aborted.Some? then
          RunResult(groups + [GroupRecord(backend, g.runs, None)], BuildError(g.aborted.value))
        else if g.stop.None? then
          RunResult(groups + [GroupRecord(backend, g.runs, None)], NilTeardown(DisplayName(backend)))
        else
          RunFrom(cfg, i + 1, groups + [GroupRecord(backend, g.runs, g.stop)], build, engine)
  }

  /** What run does with a configuration. */
  function RunSpec(cfg: Config, build: string -> Option<string>, engine: (nat, nat) -> Engine): RunResult {
    RunFrom(cfg, 0, [], build, engine)
  }

  /** The exit code is 0 exactly when every status code is 0; otherwise it
      is the first non-zero code. */
  lemma {:induction false} FirstNonZeroSpec(codes: seq<int>)
    ensures FirstNonZero(codes) == 0 <==> forall k :: 0 <= k < |codes| ==> codes[k] == 0
    ensures FirstNonZero(codes) != 0 ==>
      exists k :: 0 <= k < |codes| && codes[k] == FirstNonZero(codes) &&
        forall m :: 0 <= m < k ==> codes[m] == 0
    decreases |codes|
  {
    if codes != [] && codes[0] == 0 {
      FirstNonZeroSpec(codes[1..]);
      assert forall k :: 1 <= k < |codes| ==> codes[k] == codes[1..][k - 1];
      if FirstNonZero(codes) != 0 {
        var k :| 0 <= k < |codes[1..]| && codes[1..][k] == FirstNonZero(codes[1..]) &&
          forall m :: 0 <= m < k ==> codes[1..][m] == 0;
        assert codes[k + 1] == FirstNonZero(codes);
        assert forall m :: 0 <= m < k + 1 ==> codes[m] == 0 by {
          forall m | 0 <= m < k + 1
            ensures codes[m] == 0
          {
            if m > 0 {
              assert codes[m] == codes[1..][m - 1];
            }
          }
        }
      }
    } else if codes != [] {
      assert codes[0] == FirstNonZero(codes);
    }
  }

  /** Every status code is 0 or 1. */
  ghost predicate BinaryCodes(runs: seq<TesterRun>) {
    forall k :: 0 <= k < |runs| ==> runs[k].code == 0 || runs[k].code == 1
  }

  /** A group whose tester loop ran to its end and whose teardown was set. */
  ghost predicate Complete(g: GroupRecord, cfg: Config) {
    |g.runs| == |cfg.testers| && g.teardown.Some? && BinaryCodes(g.runs)
  }

  /** The m-th tester has no image and its build, from path, failed. */
  ghost predicate TesterBuildFailed(testers: seq<ContainerConfig>, m: nat, build: string -> Option<string>, path: string) {
    m < |testers| && testers[m].image == "" && build(BuildPath(testers[m])).None? && path == BuildPath(testers[m])
  }

  /** Every tester's image resolves: it is given, or its build succeeds. */
  ghost predicate TestersResolve(testers: seq<ContainerConfig>, build: string -> Option<string>) {
    forall m :: 0 <= m < |testers| ==> ResolveImage(testers[m], build).Resolved?
  }

  /** The tester loop extends the runs so far, with codes 0 or 1, and runs
      every tester unless a build fails; every tester it ran had its image
      resolved, and when a build fails, it is that of the first tester not
      run. */
  lemma {:induction false} GroupFromShape(testers: seq<ContainerConfig>, backend: ContainerConfig, i: nat, j: nat,
                                          runs: seq<TesterRun>, entries: map<string, string>, stop: Option<StopHandle>,
                                          build: string -> Option<string>, engine: (nat, nat) -> Engine)
    requires j <= |testers| && |runs| == j && BinaryCodes(runs)
    ensures var g := GroupFrom(testers, backend, i, j, runs, entries, stop, build, engine);
      runs <= g.runs && |g.runs| <= |testers| && BinaryCodes(g.runs) &&
      (g.aborted.None? <==> |g.runs| == |testers|) &&
      (forall m :: j <= m < |g.runs| ==> ResolveImage(testers[m], build).Resolved?) &&
      (g.aborted.Some? ==> TesterBuildFailed(testers, |g.runs|, build, g.aborted.value)) &&
      (j == |testers| ==> g.stop == stop)
    decreases |testers| - j
  {
    if j < |testers| {
      match PairStep(testers[j], backend, entries, stop, engine(i, j), build)
      case Aborted(path) =>
      case Ran(run, entries', stop') =>
        assert ResolveImage(testers[j], build).Resolved?;
        GroupFromShape(testers, backend, i, j + 1, runs + [run], entries', stop', build, engine);
    }
  }

  /** The shape of a run: its groups follow the backends in order, each
      with its backend resolved; all but the last are complete; a finished
      run completed every group, resolved every tester's image if there was
      a group, and exits with the first non-zero status code; a fatal configuration error names the backend it stopped at;
      a failed build is that of the backend after the last group, which is
      neither docker-compose nor given an image, or of the first tester the
      last group did not run; a panic names the last group's backend, whose
      StopFunc was nil. */
  ghost predicate RunShape(cfg: Config, build: string -> Option<string>, r: RunResult) {
    |r.groups| <= |cfg.tupelos| &&
    (forall k :: 0 <= k < |r.groups| ==> ResolveBackend(cfg.tupelos[k], build) == Resolved(r.groups[k].backend)) &&
    (forall k :: 0 <= k < |r.groups| - 1 ==> Complete(r.groups[k], cfg)) &&
    (r.exit.Finished? ==>
       |r.groups| == |cfg.tupelos| && (forall k :: 0 <= k < |r.groups| ==> Complete(r.groups[k], cfg)) &&
       r.exit.code == FirstNonZero(AllCodes(r.groups)) &&
       (|r.groups| > 0 ==> TestersResolve(cfg.testers, build))) &&
    (r.exit.ConfigError? ==>
       |r.groups| < |cfg.tupelos| && cfg.tupelos[|r.groups|].dockerCompose && cfg.tupelos[|r.groups|].image != "" &&
       r.exit.backend == DisplayName(cfg.tupelos[|r.groups|])) &&
    (r.exit.BuildError? ==>
       (|r.groups| < |cfg.tupelos| && !cfg.tupelos[|r.groups|].dockerCompose &&
        cfg.tupelos[|r.groups|].image == "" && build(BuildPath(cfg.tupelos[|r.groups|])).None? &&
        r.exit.path == BuildPath(cfg.tupelos[|r.groups|])) ||
       (|r.groups| > 0 && r.groups[|r.groups| - 1].teardown.None? &&
        TesterBuildFailed(cfg.testers, |r.groups[|r.groups| - 1].runs|, build, r.exit.path))) &&
    (r.exit.NilTeardown? ==>
       |r.groups| > 0 && r.groups[|r.groups| - 1].teardown.None? &&
       |r.groups[|r.groups| - 1].runs| == |cfg.testers| &&
       r.exit.backend == DisplayName(r.groups[|r.groups| - 1].backend))
  }

  lemma {:induction false} RunFromShape(cfg: Config, i: nat, groups: seq<GroupRecord>,
                                        build: string -> Option<string>, engine: (nat, nat) -> Engine)
    requires i == |groups| <= |cfg.tupelos|
    requires forall k :: 0 <= k < i ==> ResolveBackend(cfg.tupelos[k], build) == Resolved(groups[k].backend)
    requires forall k :: 0 <= k < i ==> Complete(groups[k], cfg)
    requires i > 0 ==> TestersResolve(cfg.testers, build)
    ensures RunShape(cfg, build, RunFrom(cfg, i, groups, build, engine))
    decreases |cfg.tupelos| - i
  {
    if i < |cfg.tupelos| {
      match ResolveBackend(cfg.tupelos[i], build)
      case Fatal(exit) =>
        assert exit.ConfigError? ==> cfg.tupelos[i].dockerCompose && cfg.tupelos[i].image != "";
        assert exit.BuildError? ==> !cfg.tupelos[i].dockerCompose && ResolveImage(cfg.tupelos[i], build).Fatal?;
      case Resolved(backend) =>
        GroupFromShape(cfg.testers, backend, i, 0, [], map[], None, build, engine);
        var g := Group(cfg.testers, backend, i, build, engine);
        if g.aborted.None? && g.stop.Some? {
          var groups' := groups + [GroupRecord(backend, g.runs, g.stop)];
          assert RunFrom(cfg, i, groups, build, engine) == RunFrom(cfg, i + 1, groups', build, engine);
          RunFromShape(cfg, i + 1, groups', build, engine);
        } else {
          EndedGroupShape(cfg, i, groups, backend, g, build);
        }
    }
  }

  /** The shape of a run that ends in group i, which did not complete. */
  lemma EndedGroupShape(cfg: Config, i: nat, groups: seq<GroupRecord>, backend: ContainerConfig, g: GroupEnd,
                        build: string -> Option<string>)
    requires i == |groups| < |cfg.tupelos|
    requires forall k :: 0 <= k < i ==> ResolveBackend(cfg.tupelos[k], build) == Resolved(groups[k].backend)
    requires forall k :: 0 <= k < i ==> Complete(groups[k], cfg)
    requires ResolveBackend(cfg.tupelos[i], build) == Resolved(backend)
    requires g.aborted.None? <==> |g.runs| == |cfg.testers|
    requires g.aborted.Some? ==> TesterBuildFailed(cfg.testers, |g.runs|, build, g.aborted.value)
    ensures var groups' := groups + [GroupRecord(backend, g.runs, None)];
      RunShape(cfg, build, RunResult(groups', if g.aborted.Some? then BuildError(g.aborted.value)
                                                else NilTeardown(DisplayName(backend))))
  {
    var groups' := groups + [GroupRecord(backend, g.runs, None)];
    assert forall k :: 0 <= k < i ==> groups'[k] == groups[k];
  }

  /** run's result always has the shape above. */
  lemma RunSpecShape(cfg: Config, build: string -> Option<string>, engine: (nat, nat) -> Engine)
    ensures RunShape(cfg, build, RunSpec(cfg, build, engine))
  {
    RunFromShape(cfg, 0, [], build, engine);
  }

  /** Every status code in the list is 0 or 1, and a finished run has one
      per (backend, tester) pair. */
  lemma {:induction false} AllCodesOfComplete(cfg: Config, groups: seq<GroupRecord>)
    requires forall k :: 0 <= k < |groups| ==> Complete(groups[k], cfg)
    ensures |AllCodes(groups)| == |groups| * |cfg.testers|
    ensures forall k :: 0 <= k < |AllCodes(groups)| ==> AllCodes(groups)[k] == 0 || AllCodes(groups)[k] == 1
    decreases |groups|
  {
    if groups != [] {
      var front := groups[..|groups| - 1];
      AllCodesOfComplete(cfg, front);
      var last := groups[|groups| - 1];
      assert Complete(last, cfg);
      var codes := AllCodes(front) + RunCodes(last.runs);
      assert AllCodes(groups) == codes;
      forall k | 0 <= k < |codes|
        ensures codes[k] == 0 || codes[k] == 1
      {
        if k >= |AllCodes(front)| {
          assert codes[k] == last.runs[k - |AllCodes(front)|].code;
        }
      }
    }
  }

  /** The process exits 0 exactly when every backend group completed and
      every tester passed; a finished run otherwise exits 1, with the first
      non-zero status code. */
  lemma RunExitStatus(cfg: Config, build: string -> Option<string>, engine: (nat, nat) -> Engine)
    ensures var r := RunSpec(cfg, build, engine);
      (ExitStatus(r.exit) == 0 <==>
         r.exit.Finished? && forall k :: 0 <= k < |AllCodes(r.groups)| ==> AllCodes(r.groups)[k] == 0) &&
      (r.exit.Finished? ==> |AllCodes(r.groups)| == |cfg.tupelos| * |cfg.testers|) &&
      (ExitStatus(r.exit) == 0 || ExitStatus(r.exit) == 1 || ExitStatus(r.exit) == 2)
  {
    var r := RunSpec(cfg, build, engine);
    RunSpecShape(cfg, build, engine);
    if r.exit.Finished? {
      AllCodesOfComplete(cfg, r.groups);
      FirstNonZeroSpec(AllCodes(r.groups));
      if FirstNonZero(AllCodes(r.groups)) != 0 {
        var k :| 0 <= k < |AllCodes(r.groups)| && AllCodes(r.groups)[k] == FirstNonZero(AllCodes(r.groups));
      }
    }
  }

  /** A docker-compose backend that names an image stops the run fatally:
      no tester runs against it or any later backend, and the run never
      reaches its exit-code scan. */
  lemma ComposeImageIsFatal(cfg: Config, build: string -> Option<string>, engine: (nat, nat) -> Engine, k: nat)
    requires k < |cfg.tupelos| && cfg.tupelos[k].dockerCompose && cfg.tupelos[k].image != ""
    ensures |RunSpec(cfg, build, engine).groups| <= k
    ensures !RunSpec(cfg, build, engine).exit.Finished?
  {
    RunSpecShape(cfg, build, engine);
    assert ResolveBackend(cfg.tupelos[k], build).Fatal?;
  }

  /** With no testers, StopFunc is never assigned, so the first backend
      whose image resolves ends the run with the nil-function panic. */
  lemma NoTestersPanics(cfg: Config, build: string -> Option<string>, engine: (nat, nat) -> Engine)
    requires |cfg.testers| == 0 && |cfg.tupelos| > 0
    requires ResolveBackend(cfg.tupelos[0], build).Resolved?
    ensures RunSpec(cfg, build, engine) ==
      RunResult([GroupRecord(ResolveBackend(cfg.tupelos[0], build).config, [], None)],
                NilTeardown(DisplayName(ResolveBackend(cfg.tupelos[0], build).config)))
    ensures ExitStatus(RunSpec(cfg, build, engine).exit) == 2
  {
    var backend := ResolveBackend(cfg.tupelos[0], build).config;
    assert Group(cfg.testers, backend, 0, build, engine) == GroupEnd([], map[], None, None);
  }

  /** A tester whose image cannot be built, whichever it is, ends the whole
      run in the first group, with status 1: either the first backend is
      fatal already, or that group runs at most the testers before it, its
      teardown is not called, and the build named is that of a tester whose
      build failed, at or before the given one. */
  lemma TesterBuildIsFatal(cfg: Config, build: string -> Option<string>, engine: (nat, nat) -> Engine, m: nat)
    requires |cfg.tupelos| > 0
    requires m < |cfg.testers| && TesterBuildFailed(cfg.testers, m, build, BuildPath(cfg.testers[m]))
    ensures var r := RunSpec(cfg, build, engine);
      |r.groups| <= 1 && (r.exit.BuildError? || r.exit.ConfigError?) && ExitStatus(r.exit) == 1
    ensures var r := RunSpec(cfg, build, engine);
      ResolveBackend(cfg.tupelos[0], build).Resolved? ==>
        |r.groups| == 1 && |r.groups[0].runs| <= m && r.groups[0].teardown.None? && r.exit.BuildError? &&
        TesterBuildFailed(cfg.testers, |r.groups[0].runs|, build, r.exit.path)
  {
    match ResolveBackend(cfg.tupelos[0], build)
    case Fatal(exit) =>
      assert exit.ConfigError? || exit.BuildError?;
    case Resolved(backend) =>
      GroupFromShape(cfg.testers, backend, 0, 0, [], map[], None, build, engine);
      var g := Group(cfg.testers, backend, 0, build, engine);
      assert ResolveImage(cfg.testers[m], build).Fatal?;
      assert |g.runs| <= m;
      assert RunSpec(cfg, build, engine) == RunResult([GroupRecord(backend, g.runs, None)], BuildError(g.aborted.value));
  }

  /** The final scan over the status codes, stopping at the first non-zero
      one. */
  method ExitScan(codes: seq<int>) returns (code: int)
    ensures code == FirstNonZero(codes)
  {
    var k := 0;
    while k < |codes|
      invariant 0 <= k <= |codes|
      invariant FirstNonZero(codes[k..]) == FirstNonZero(codes)
    {
      if codes[k] != 0 {
        return codes[k];
      }
      assert codes[k..][1..] == codes[k + 1..];
      k := k + 1;
    }
    return 0;
  }

  /** The tester loop of one group: resolve each tester's image and run it
      against the backend, appending its status code. Stops at the first
      failed build. */
  method RunGroup(cfg: Config, reg: RunningTupelo, tupelo: ContainerConfig, i: nat,
                  build: string -> Option<string>, engine: (nat, nat) -> Engine, codesBefore: seq<int>)
    returns (runs: seq<TesterRun>, stop: Option<StopHandle>, aborted: Option<string>, statusCodes: seq<int>)
    requires reg.entries == map[]
    modifies reg
    ensures Group(cfg.testers, tupelo, i, build, engine) == GroupEnd(runs, reg.entries, stop, aborted)
    ensures statusCodes == codesBefore + RunCodes(runs)
  {
    statusCodes := codesBefore;
    stop := None;
    runs := [];
    aborted := None;
    var j := 0;
    while j < |cfg.testers|
      invariant 0 <= j <= |cfg.testers|
      invariant statusCodes == codesBefore + RunCodes(runs)
      invariant GroupFrom(cfg.testers, tupelo, i, j, runs, reg.entries, stop, build, engine) ==
        Group(cfg.testers, tupelo, i, build, engine)
    {
      var tester := cfg.testers[j];
      if tester.image == "" {
        if tester.build == "" {
          tester := tester.(build := ".");
        }
        var imageId := build(tester.build);
        if imageId.None? {
          aborted := Some(tester.build);
          return;
        }
        tester := tester.(image := imageId.value);
      }
      assert ResolveImage(cfg.testers[j], build) == Resolved(tester);
      var code, tester', stop', calls, daemonOrder, testerOrder := reg.RunSingle(tester, tupelo, stop, engine(i, j));
      stop := stop';
      runs := runs + [TesterRun(tester', code)];
      statusCodes := statusCodes + [code];
      j := j + 1;
    }
  }

  /** run, over the process-wide registry, which starts empty. */
  method Run(cfg: Config, reg: RunningTupelo, build: string -> Option<string>, engine: (nat, nat) -> Engine)
    returns (result: RunResult)
    requires reg.entries == map[]
    modifies reg
    ensures result == RunSpec(cfg, build, engine)
    ensures result.exit.Finished? ==> reg.entries == map[]
  {
    var statusCodes: seq<int> := [];
    var groups: seq<GroupRecord> := [];
    var i := 0;
    while i < |cfg.tupelos|
      invariant 0 <= i <= |cfg.tupelos|
      invariant reg.entries == map[]
      invariant statusCodes == AllCodes(groups)
      invariant RunFrom(cfg, i, groups, build, engine) == RunSpec(cfg, build, engine)
    {
      var tupelo := cfg.tupelos[i];
      if tupelo.dockerCompose {
        if tupelo.image != "" {
          return RunResult(groups, ConfigError(DisplayName(tupelo)));
        }
      } else if tupelo.image == "" {
        if tupelo.build == "" {
          tupelo := tupelo.(build := ".");
        }
        var imageId := build(tupelo.build);
        if imageId.None? {
          return RunResult(groups, BuildError(tupelo.build));
        }
        tupelo := tupelo.(image := imageId.value);
      }
      assert ResolveBackend(cfg.tupelos[i], build) == Resolved(tupelo);

      var runs, stop, aborted;
      runs, stop, aborted, statusCodes := RunGroup(cfg, reg, tupelo, i, build, engine, statusCodes);
      if aborted.Some? {
        return RunResult(groups + [GroupRecord(tupelo, runs, None)], BuildError(aborted.value));
      }
      if stop.None? {
        return RunResult(groups + [GroupRecord(tupelo, runs, None)], NilTeardown(DisplayName(tupelo)));
      }
      assert AllCodes(groups + [GroupRecord(tupelo, runs, stop)]) == statusCodes;
      groups := groups + [GroupRecord(tupelo, runs, stop)];
      reg.Clear();
      i := i + 1;
    }
    var code := ExitScan(statusCodes);
    result := RunResult(groups, Finished(code));
  }
}
