# tupelo-integration-runner, modelled in Dafny

The integration runner reads a YAML file that lists backend variants (the
"tupelos": a single container, or a docker-compose stack) and tester
containers. It runs every tester against every backend, one backend group at
a time, and exits with the first non-zero tester status. Within a group,
`runSingle` starts the backend only while the process-wide `runningTupelo`
map is empty; once a start has recorded where the backend listens, later
testers of the group reuse it. From that map it injects
`TUPELO_RPC_HOST`, `TUPELO_BOOTSTRAP_NODES` and `TUPELO_VERSION` into each
tester's environment. After each group, `run` calls the backend's `StopFunc`
and replaces the map with an empty one.

This project models the decisions of `main.go`, with every docker,
docker-compose and network outcome taken as an input:

- `strings.dfy` (module `Strings`) models Go's `strings.Split` on one
  character, and `Join`, with their round trips.
- `container.dfy` (module `Container`) models `containerConfig`, its
  `String` method, and the `StopFunc` closures (`StopHandle`).
- `docker_args.dfy` (module `DockerArgs`) models `dockerRunArgs`. Go visits
  the `Env` map in no fixed order, so the method returns the order it chose
  as a ghost witness, and every property holds for any such order.
- `version.dfy` (module `Version`) models `getVersion`. The output of
  `docker run <image> version` is an input, and `None` means the command
  failed. The leftmost match of `v(\d+\.\d+\.\d+)` is specified by
  predicates and proved against the scanning function.
- `load_config.dfy` (module `LoadConfig`) models `loadConfig` once the YAML
  has been decoded, for both file layouts. The order in which the version-2
  maps are visited is left open.
- `registry.dfy` (module `Registry`) models `runSingle` as a class
  `RunningTupelo` that holds the `runningTupelo` map.
  - The outcomes of compose up, `containerIP`, `dockerHostIP`, the port wait,
    `docker run -d`, the version command and the tester run are one `Engine`
    record.
  - The calls made are returned as a trace of `EngineCall`s.
- `runner.dfy` (module `Runner`) models `run`.
  - `buildImage` is an oracle from build path to image id; `None` stands for
    its `log.Fatalf`.
  - The outcomes of the engine for the j-th tester of the i-th backend are
    `engine(i, j)`.
  - The method `Run` is proved equal to the recursive specification
    `RunSpec`.

## Behaviour of the code worth knowing

- The check that a docker-compose backend names no image runs inside the
  backend loop (main.go:423-426), so earlier backend groups have already run
  when it fires (`Runner.ComposeImageIsFatal`).
- A failed backend start is not fatal to its group: `runSingle` returns 1
  and the next tester of the group finds the registry as the failed start
  left it (main.go:269).
  - If the start failed before both compose containers had addresses, or a
    single container failed, the registry is still empty, and the next
    tester starts the backend again.
  - If a compose stack's containers had addresses but the docker host could
    not be determined or its ports never opened, `network` is already in
    the registry (main.go:298). The next tester therefore skips the start
    and the probe, and runs with `TUPELO_RPC_HOST` set to `:50051`
    (`Registry.RegistryAfterStart`, `Registry.FailedWaitIsReused`).
- `run` calls `StopFunc` unconditionally (main.go:448). In a group with no
  testers, or where no start got as far as assigning it, the function is
  nil. The call then panics and the process exits with status 2
  (`Runner.NilTeardown`, `Runner.NoTestersPanics`).
- Version-2 entries lose their `env` and `network` (main.go:514-531), so
  their testers see only the injected variables.
- Neither file layout gives a backend a default command: a missing command
  stays empty (main.go:514-549).
- A failed image build (`log.Fatalf`, main.go:402-416) ends the whole run
  with status 1, whichever group it happens in (`Runner.RunSpecShape`).
  Testers are rebuilt in every group, so a tester whose build fails stops
  the run in the first group, after the testers before it
  (`Runner.TesterBuildIsFatal`).

## Model

| member | source | states |
|---|---|---|
| Container.DisplayName | main.go:472-482 | the name shown is the name if set, else the image if set, else the build path; it is empty exactly when all three are |
| Strings.Split | main.go:116 | splitting yields at least one piece, and no piece contains the separator |
| Strings.JoinSplit | main.go:116 | joining the pieces of a split with the separator gives back the original string |
| Strings.SplitJoin | main.go:543 | pieces free of the separator, joined and split again, come back unchanged |
| Strings.SplitMany | main.go:116-120 | a split has more than one piece exactly when the separator occurs in the string |
| Strings.JoinLast | main.go:118-120 | a join of two or more pieces is the join of all but the last, the separator, and the last piece |
| DockerArgs.EnvFlagsAt | main.go:59-61 | the i-th variable visited contributes `-e` at position 2i and `k=v` at position 2i+1 |
| DockerArgs.EnvArgs | main.go:59-61 | the loop over Env visits every key exactly once, in some order, and emits one `-e k=v` pair per key |
| DockerArgs.DockerRunArgs | main.go:50-71 | the arguments are `run`, the mode flag, the `-e` pairs for the order the keys were visited in, the optional `--net` pair, the image, and the command |
| DockerArgs.RunArgsLayout | main.go:50-71 | for any order of the keys: the list starts `run` then `-d` or `--rm`; one `-e k=v` pair per variable; `--net` and the network exactly when the network is non-empty; it ends with the image followed by exactly the command; its length is 2 + 2·\|Env\| + (0 or 2) + 1 + \|Command\| |
| Version.DigitRun | main.go:108 | the length of the digit run starting at a position: every character in it is a digit, and the next one is not |
| Version.MatchEndIff | main.go:108-109 | the greedy scanner finds a match starting at a position exactly when `v\d+\.\d+\.\d+` matches there |
| Version.FindVersionSpec | main.go:108-113 | no version is found exactly when the pattern matches nowhere; a version is found exactly when it is the capture of the leftmost match, extended greedily |
| Version.GetVersionSpec | main.go:103-123 | the result is the leftmost captured version from a successful command; otherwise the text after the last `:` of the image reference (a suffix with no `:`); otherwise `snapshot` |
| Version.VersionFromOutput | main.go:107-113 | the output `v1.2.3` gives `1.2.3`, even for a tagged image |
| Version.VersionFromTag | main.go:116-120 | a failed command on `foo:edge` gives `edge` |
| Version.VersionSnapshot | main.go:122 | an output without a version and an untagged image give `snapshot` |
| LoadConfig.NamedEntries | main.go:514-531 | one config per named entry, whatever the map order: the key becomes the name, build, image and command are kept, docker-compose only for backends, and env and network are dropped |
| LoadConfig.ImageLineRoundTrip | main.go:542-549 | a version-1 image line is recovered by joining its image and command with spaces, and no piece holds a space |
| LoadConfig.ImageLineOfJoined | main.go:542-549 | an image and space-free command pieces, joined into a line, split back into that image and command |
| LoadConfig.ImageLines | main.go:542-549 | one backend per image line, in order, each the split of its line |
| LoadConfig.Load | main.go:513-553 | a file with named backends gives the named copies of both maps; otherwise one backend per image line, in order, and exactly the one tester as written |
| Registry.Inject | main.go:347-356 | the tester afterwards has `TUPELO_RPC_HOST` set to the RPC server's address plus `:50051`, and `TUPELO_VERSION` set to the version; `TUPELO_BOOTSTRAP_NODES` is set to the peer multiaddress exactly when a bootstrapper address is known, and otherwise left as it was; every other variable is unchanged; the network is replaced exactly when the registry holds one; no other field changes |
| Registry.StartsOnlyWhenEmpty | main.go:269 | a backend is started (compose up or `docker run -d`) exactly when the registry is empty; a non-empty registry is reused unchanged and counts as ready; the start phase never runs a tester |
| Registry.TesterRunsOnlyWhenReady | main.go:269-369 | the tester runs exactly when the backend is ready, as the last call; a freshly started compose stack is ready only after the port wait was made and succeeded |
| Registry.RegistryAfterStart | main.go:269-339 | after a successful start the registry holds exactly the RPC server and bootstrapper addresses (and `tupelo_default` for a stack); after a failed start it is empty, or holds only the network for a stack whose containers had addresses |
| Registry.StopAfterStart | main.go:277-328 | StopFunc becomes the compose teardown once compose up succeeded, or the container removal once `docker run -d` returned an id; before that it keeps its previous value |
| Registry.FailedWaitIsReused | main.go:298-314 | after a compose stack's ports failed to open, the next tester of the group finds the backend ready without a new start, and gets the network and an RPC host of `:50051` |
| Registry.RunningTupelo.constructor | main.go:260 | the registry starts empty |
| Registry.RunningTupelo.Clear | main.go:449 | the registry is empty afterwards |
| Registry.RunningTupelo.StartBackend | main.go:269-339 | the start phase's readiness, new registry, StopFunc and calls are those of the launch specification |
| Registry.RunningTupelo.StartCompose | main.go:270-314 | the compose start phase meets the compose launch specification, calls included |
| Registry.RunningTupelo.StartDaemon | main.go:315-334 | the single-container start phase meets the container launch specification, calls included |
| Registry.RunningTupelo.RunSingle | main.go:262-370 | the status code is 0 exactly when the backend is ready and the tester passed; the registry and StopFunc follow the launch specification; the tester is injected exactly when the backend is ready; the calls are the start phase's, then (only when ready) the version run, the optional pull and the tester run |
| Runner.ResolveImage | main.go:427-442 | an image that is set is kept unchanged; otherwise the build path becomes `.` when none is given and stays as given otherwise, and the image becomes what building that path returned; a failed build is fatal and names that path |
| Runner.ResolveBackend | main.go:423-431 | a compose backend with an image is exactly the fatal configuration error naming it; a compose backend without one is used as it is; any other backend is resolved like a tester |
| Runner.FirstNonZeroSpec | main.go:452-458 | the exit code is 0 exactly when every status code is 0, and otherwise is the first non-zero code |
| Runner.ExitScan | main.go:452-458 | the scan returns the first non-zero status code, or 0 |
| Runner.GroupFromShape | main.go:435-446 | a group's tester loop extends its runs, records codes of 0 or 1, and runs every tester unless a build fails; every tester it ran had its image resolved; when it stops early, the tester at the number of runs made has no image and its build path is the one that failed |
| Runner.RunSpecShape | main.go:417-458 | groups follow the backends in order, each backend resolved; all but the last group completed; a finished run completed every group, resolved every tester's image when there was a backend, and exits with the first non-zero code; a configuration error names the backend it stopped at; a build error is the failed build of the backend after the last group (neither docker-compose nor given an image), or of the first tester the last group did not run, whose teardown is then not called; a panic names the last backend, whose StopFunc was nil |
| Runner.AllCodesOfComplete | main.go:445 | completed groups contribute one status code per (backend, tester) pair, each 0 or 1 |
| Runner.RunExitStatus | main.go:445-458 | the process exits 0 exactly when the run finished and every status code is 0; a finished run has one code per pair; the exit status is 0, 1 or 2 |
| Runner.ComposeImageIsFatal | main.go:423-426 | a compose backend with an image means no tester runs against it or any later backend, and the run never reaches the exit-code scan |
| Runner.TesterBuildIsFatal | main.go:436-442 | when there is a backend, a tester whose image cannot be built, whichever it is, makes the run end in its first group with status 1: either the first backend is already fatal, or that group runs at most the testers before it, its teardown is not called, and the error names the failed build of the first tester not run |
| Runner.NoTestersPanics | main.go:435-448 | with no testers, the first backend whose image resolves ends the run with the nil-StopFunc panic, status 2 |
| Runner.RunGroup | main.go:435-446 | the tester loop meets the group specification and appends one status code per tester run |
| Runner.Run | main.go:417-458 | the run meets the run specification; the registry is empty at the start of every group and after a finished run |

## Left out

- Process execution and Docker I/O (`runCmd`, `runForegroundCmd`,
  `dockerRm`, `dockerPull`, `dockerRunDaemon`, `dockerRunForeground`,
  `buildImage`) are not modelled. Their results are inputs:
  - the `Engine` record;
  - the build oracle;
  - `docker run -d` returning a container id or failing.
- `setup` is not modelled: the model starts after a successful `setup`.
  Its `os.Exit(1)` when docker is missing or `docker info` fails
  (main.go:372-392) has no counterpart in the model.
- `firstOpenPort`, `waitForOpenPorts` and `waitForBootstrapAndRPCServers` are
  left out: they are goroutines, TCP dials with timeouts and polling. Their
  result is `Engine.portsOpen`, and the `WaitForPorts` call records the
  addresses and ports probed.
- `containerIP` is left out, because it retries `docker inspect` with sleeps.
  Its result is an input (`bootstrapIP`, `rpcServerIP`, `containerIP`).
- `dockerHostIP` is left out, because it reads the environment and parses a
  URL. Its result is `Engine.dockerHost`.
- YAML decoding, reading the file, the command line and logging are left
  out. `Load` starts from the decoded documents.
- Printing is not modelled.
- Go's map iteration order is not fixed. The order the runner chose is
  returned as a ghost witness, and every property holds for any order.
- The teardown closures are named (`StopHandle`), not run. The model records
  which teardown a group ends with, and nothing about what it does or how
  often it runs.
- Runner.ResolveImage: the build oracle is one function of the build path, so
  building the same path twice gives the same image id in the model; Docker
  gives no such guarantee.
- The model treats a tester's `Env` as a value. In Go, the same `Env` map of
  a version-1 tester is updated by every group. Each group overwrites
  `TUPELO_RPC_HOST` and `TUPELO_VERSION` before the tester runs, and a
  version-1 backend never sets `TUPELO_BOOTSTRAP_NODES`, so this sharing does
  not change what any tester is given.
- A nil `Env` is modelled as the empty map, as it reads in Go.
- Registry.RunningTupelo.RunSingle: the `getVersion` error branch
  (main.go:342-345) is not modelled, because `getVersion` never returns an
  error.
