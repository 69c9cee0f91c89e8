/** runSingle and the process-wide `runningTupelo` map: start the backend
    once per group, remember where it listens, and hand that to each tester
    through its environment. Every outcome of docker, docker-compose and the
    port probes is an input (`Engine`); the calls made are returned as a
    trace (`EngineCall`). */
module Registry {
  import opened Wrappers
  import opened Container
  import opened DockerArgs
  import opened Version

  /** Keys of the registry. */
  const NetworkKey := "network"
  const RpcServerKey := "rpcServerIP"
  const BootstrapperKey := "bootstrapperIP"

  /** The network docker-compose creates for the stack. */
  const ComposeNetwork := "tupelo_default"

  /** Variables injected into a tester's environment. */
  const RpcHostVar := "TUPELO_RPC_HOST"
  const BootstrapNodesVar := "TUPELO_BOOTSTRAP_NODES"
  const VersionVar := "TUPELO_VERSION"

  const RpcPort := "50051"
  const BootstrapPort := "34001"
  const BootstrapPeerId := "16Uiu2HAm3TGSEKEjagcCojSJeaT5rypaeJMKejijvYSnAjviWwV5"

  /** Go's map index: the empty string for a missing key. */
  function Lookup(m: map<string, string>, k: string): string {
    if k in m then m[k] else ""
  }

  function RpcHost(ip: string): string { ip + ":" + RpcPort }

  function BootstrapNodes(ip: string): string {
    "/ip4/" + ip + "/tcp/" + BootstrapPort + "/ipfs/" + BootstrapPeerId
  }

  /** Addresses to probe for one open port (discoverHost). */
  datatype DiscoverHost = DiscoverHost(addresses: seq<string>, port: string)

  /** What runSingle asks of the outside world, in order. */
  datatype EngineCall =
    | ComposeUp                         // docker-compose up -d --build --force-recreate
    | Inspect(target: string)           // containerIP: docker inspect until an address appears
    | WaitForPorts(bootstrapper: DiscoverHost, rpcServer: DiscoverHost)
    | Pull(image: string)               // pullImage; a failure is only logged
    | RunDaemon(args: seq<string>)      // docker run -d ...
    | RunVersion(image: string)         // docker run <image> version
    | RunForeground(args: seq<string>)  // docker run --rm ... (the tester)

  /** The outcomes of the outside world for one runSingle call. */
  datatype Engine = Engine(
    composeUp: bool,                // docker-compose up succeeded
    bootstrapIP: Option<string>,    // containerIP("bootstrap")
    rpcServerIP: Option<string>,    // containerIP("rpc-server")
    dockerHost: Option<string>,     // dockerHostIP(): DOCKER_HOST's host, or 127.0.0.1
    portsOpen: bool,                // waitForBootstrapAndRPCServers succeeded
    containerId: Option<string>,    // docker run -d printed this id
    containerIP: Option<string>,    // containerIP(containerId)
    versionOutput: Option<string>,  // output of docker run <image> version
    testerPassed: bool)             // the tester container exited 0

  /** The start phase of runSingle: whether the backend is ready, the
      registry afterwards, and the backend's StopFunc afterwards. */
  datatype Launch = Launch(ready: bool, entries: map<string, string>, stop: Option<StopHandle>)

  /** The start phase. A backend is started only when the registry is
      empty; otherwise the running one is reused as it is. */
  function LaunchBackend(entries: map<string, string>, tupelo: ContainerConfig,
                         stop: Option<StopHandle>, e: Engine): Launch
  {
    if |entries| != 0 then Launch(true, entries, stop)
    else if tupelo.dockerCompose then ComposeLaunch(entries, stop, e)
    else DaemonLaunch(entries, stop, e)
  }

  /** Starting a docker-compose stack. Its network is recorded as soon as
      both containers have addresses, before the ports are known to be open;
      the addresses only once they are. */
  function ComposeLaunch(entries: map<string, string>, stop: Option<StopHandle>, e: Engine): Launch {
    if !e.composeUp then Launch(false, entries, stop)
    else if e.bootstrapIP.None? || e.rpcServerIP.None? then Launch(false, entries, Some(ComposeDown))
    else
      var withNetwork := entries[NetworkKey := ComposeNetwork];
      if e.dockerHost.None? || !e.portsOpen then Launch(false, withNetwork, Some(ComposeDown))
      else
        Launch(true, withNetwork[RpcServerKey := e.rpcServerIP.value][BootstrapperKey := e.bootstrapIP.value],
               Some(ComposeDown))
  }

  /** Starting a single backend container: it is its own bootstrapper, so
      no bootstrapper address is recorded. */
  function DaemonLaunch(entries: map<string, string>, stop: Option<StopHandle>, e: Engine): Launch {
    match e.containerId
    case None => Launch(false, entries, stop)
    case Some(id) =>
      if e.containerIP.None? then Launch(false, entries, Some(RemoveContainer(id)))
      else Launch(true, entries[RpcServerKey := e.containerIP.value][BootstrapperKey := ""], Some(RemoveContainer(id)))
  }

  /** The calls of the start phase; `daemonOrder` is the order in which the
      daemon's environment is listed. */
  function LaunchCalls(entries: map<string, string>, tupelo: ContainerConfig, e: Engine,
                       daemonOrder: seq<string>): seq<EngineCall>
    requires IsKeyOrder(daemonOrder, tupelo.env.Keys)
  {
    if |entries| != 0 then []
    else if tupelo.dockerCompose then ComposeCalls(e)
    else DaemonCalls(tupelo, e, daemonOrder)
  }

  function ComposeCalls(e: Engine): seq<EngineCall> {
    [ComposeUp] +
    if !e.composeUp then [] else
    [Inspect("bootstrap")] +
    if e.bootstrapIP.None? then [] else
    [Inspect("rpc-server")] +
    if e.rpcServerIP.None? || e.dockerHost.None? then [] else
    [WaitForPorts(DiscoverHost([e.dockerHost.value, e.bootstrapIP.value], BootstrapPort),
                  DiscoverHost([e.dockerHost.value, e.rpcServerIP.value], RpcPort))]
  }

  function DaemonCalls(tupelo: ContainerConfig, e: Engine, daemonOrder: seq<string>): seq<EngineCall>
    requires IsKeyOrder(daemonOrder, tupelo.env.Keys)
  {
    (if tupelo.build == "" then [Pull(tupelo.image)] else []) +
    [RunDaemon(RunArgs(tupelo, true, daemonOrder))] +
    (if e.containerId.None? then [] else [Inspect(e.containerId.value)])
  }

  /** The calls once the backend is ready: its version, then the tester
      (pulled first unless it was built locally) in the foreground. */
  function TesterCalls(tester: ContainerConfig, tupelo: ContainerConfig, testerOrder: seq<string>): seq<EngineCall>
    requires IsKeyOrder(testerOrder, tester.env.Keys)
  {
    [RunVersion(tupelo.image)] +
    (if tester.build == "" then [Pull(tester.image)] else []) +
    [RunForeground(RunArgs(tester, false, testerOrder))]
  }

  /** runSingle's return value. */
  function PairCode(ready: bool, e: Engine): int {
    if ready && e.testerPassed then 0 else 1
  }

  /** The tester's environment and network once the registry is known:
      the RPC host always, the bootstrap node only when a bootstrapper
      address is known, the version always, the network only when one is
      recorded; nothing else changes. */
  function Inject(tester: ContainerConfig, entries: map<string, string>, version: string): (t: ContainerConfig)
    ensures RpcHostVar in t.env && t.env[RpcHostVar] == RpcHost(Lookup(entries, RpcServerKey))
    ensures VersionVar in t.env && t.env[VersionVar] == version
    ensures Lookup(entries, BootstrapperKey) != "" ==>
      BootstrapNodesVar in t.env && t.env[BootstrapNodesVar] == BootstrapNodes(Lookup(entries, BootstrapperKey))
    ensures Lookup(entries, BootstrapperKey) == "" ==>
      (BootstrapNodesVar in t.env <==> BootstrapNodesVar in tester.env) &&
      (BootstrapNodesVar in tester.env ==> t.env[BootstrapNodesVar] == tester.env[BootstrapNodesVar])
    ensures forall k :: k != RpcHostVar && k != BootstrapNodesVar && k != VersionVar ==>
      (k in t.env <==> k in tester.env) && (k in tester.env ==> t.env[k] == tester.env[k])
    ensures t.network == if Lookup(entries, NetworkKey) != "" then Lookup(entries, NetworkKey) else tester.network
    ensures t.(env := tester.env, network := tester.network) == tester
  {
    var bootstrapper := Lookup(entries, BootstrapperKey);
    var network := Lookup(entries, NetworkKey);
    var env := tester.env[RpcHostVar := RpcHost(Lookup(entries, RpcServerKey))];
    var env' := if bootstrapper != "" then env[BootstrapNodesVar := BootstrapNodes(bootstrapper)] else env;
    tester.(env := env'[VersionVar := version], network := if network != "" then network else tester.network)
  }

  /** The trace starts a backend (compose up or docker run -d). */
  predicate Starts(calls: seq<EngineCall>) {
    exists i :: 0 <= i < |calls| && (calls[i].ComposeUp? || calls[i].RunDaemon?)
  }

  /** The trace runs a tester in the foreground. */
  predicate RunsTester(calls: seq<EngineCall>) {
    exists i :: 0 <= i < |calls| && calls[i].RunForeground?
  }

  /** A backend is started exactly when the registry is empty, and a
      non-empty registry is reused unchanged with the backend ready. */
  lemma StartsOnlyWhenEmpty(entries: map<string, string>, tupelo: ContainerConfig, stop: Option<StopHandle>,
                            e: Engine, daemonOrder: seq<string>)
    requires IsKeyOrder(daemonOrder, tupelo.env.Keys)
    ensures Starts(LaunchCalls(entries, tupelo, e, daemonOrder)) <==> |entries| == 0
    ensures |entries| != 0 ==> LaunchBackend(entries, tupelo, stop, e) == Launch(true, entries, stop)
    ensures !RunsTester(LaunchCalls(entries, tupelo, e, daemonOrder))
  {
    var calls := LaunchCalls(entries, tupelo, e, daemonOrder);
    if |entries| == 0 {
      if tupelo.dockerCompose {
        assert calls[0].ComposeUp?;
      } else {
        var pulls := if tupelo.build == "" then [Pull(tupelo.image)] else [];
        assert calls[|pulls|].RunDaemon?;
      }
    }
  }

  /** The tester runs exactly when the backend is ready, as the last call;
      a freshly started stack is ready only after its ports were probed and
      found open. */
  lemma TesterRunsOnlyWhenReady(entries: map<string, string>, tupelo: ContainerConfig, stop: Option<StopHandle>,
                                e: Engine, daemonOrder: seq<string>, tester: ContainerConfig, testerOrder: seq<string>)
    requires IsKeyOrder(daemonOrder, tupelo.env.Keys) && IsKeyOrder(testerOrder, tester.env.Keys)
    ensures var ready := LaunchBackend(entries, tupelo, stop, e).ready;
      var calls := LaunchCalls(entries, tupelo, e, daemonOrder) +
        (if ready then TesterCalls(tester, tupelo, testerOrder) else []);
      (RunsTester(calls) <==> ready) &&
      (ready ==> calls[|calls| - 1] == RunForeground(RunArgs(tester, false, testerOrder))) &&
      (ready && |entries| == 0 && tupelo.dockerCompose ==>
         e.portsOpen && exists i :: 0 <= i < |calls| && calls[i].WaitForPorts?)
  {
    var ready := LaunchBackend(entries, tupelo, stop, e).ready;
    var launch := LaunchCalls(entries, tupelo, e, daemonOrder);
    var calls := launch + (if ready then TesterCalls(tester, tupelo, testerOrder) else []);
    StartsOnlyWhenEmpty(entries, tupelo, stop, e, daemonOrder);
    if ready {
      assert calls[|calls| - 1].RunForeground?;
      if |entries| == 0 && tupelo.dockerCompose {
        assert launch[3].WaitForPorts?;
        assert calls[3] == launch[3];
      }
    } else {
      assert calls == launch;
    }
  }

  /** What a start from an empty registry leaves in it: after a successful
      start, the RPC server's address and the bootstrapper's (empty for a
      single container), plus the compose network for a stack; after a
      failed one, nothing, or only the compose network when the stack's
      containers had addresses but its ports never opened (or the docker
      host could not be determined). */
  lemma RegistryAfterStart(tupelo: ContainerConfig, stop: Option<StopHandle>, e: Engine)
    ensures var l := LaunchBackend(map[], tupelo, stop, e);
      (l.ready && tupelo.dockerCompose ==>
         l.entries == map[NetworkKey := ComposeNetwork, RpcServerKey := e.rpcServerIP.value,
                          BootstrapperKey := e.bootstrapIP.value] &&
         e.composeUp && e.dockerHost.Some? && e.portsOpen) &&
      (l.ready && !tupelo.dockerCompose ==>
         l.entries == map[RpcServerKey := e.containerIP.value, BootstrapperKey := ""]) &&
      (!l.ready ==>
         l.entries == map[] ||
         (tupelo.dockerCompose && e.bootstrapIP.Some? && e.rpcServerIP.Some? &&
          l.entries == map[NetworkKey := ComposeNetwork]))
  {
    var l := LaunchBackend(map[], tupelo, stop, e);
  }

  /** A started backend's teardown is what StopFunc holds afterwards; a
      start that fails before compose up or docker run -d succeeds leaves
      StopFunc as it was. */
  lemma StopAfterStart(tupelo: ContainerConfig, stop: Option<StopHandle>, e: Engine)
    ensures var l := LaunchBackend(map[], tupelo, stop, e);
      (tupelo.dockerCompose && e.composeUp ==> l.stop == Some(ComposeDown)) &&
      (!tupelo.dockerCompose && e.containerId.Some? ==> l.stop == Some(RemoveContainer(e.containerId.value))) &&
      (tupelo.dockerCompose && !e.composeUp ==> l.stop == stop) &&
      (!tupelo.dockerCompose && e.containerId.None? ==> l.stop == stop)
  {
  }

  /** When a stack's ports never open, the network is already recorded, so
      the next tester of the same group finds a non-empty registry: it does
      not start or probe the stack again, counts it as ready, and is given
      an RPC host with an empty address. */
  lemma FailedWaitIsReused(tupelo: ContainerConfig, stop: Option<StopHandle>, e1: Engine, e2: Engine,
                           tester: ContainerConfig, version: string)
    requires tupelo.dockerCompose && e1.composeUp && e1.bootstrapIP.Some? && e1.rpcServerIP.Some?
    requires e1.dockerHost.Some? && !e1.portsOpen
    ensures var l1 := LaunchBackend(map[], tupelo, stop, e1);
      var l2 := LaunchBackend(l1.entries, tupelo, l1.stop, e2);
      !l1.ready && l2.ready && l2.entries == l1.entries &&
      Inject(tester, l2.entries, version).env[RpcHostVar] == ":" + RpcPort &&
      Inject(tester, l2.entries, version).network == ComposeNetwork
  {
    var l1 := LaunchBackend(map[], tupelo, stop, e1);
    assert l1.entries == map[NetworkKey := ComposeNetwork];
    assert NetworkKey in l1.entries;
    assert RpcServerKey !in l1.entries;
    assert Lookup(l1.entries, RpcServerKey) == "";
  }

  /** The class around the `runningTupelo` map. */
  class RunningTupelo {
    var entries: map<string, string>

    /** The map starts empty. */
    constructor ()
      ensures entries == map[]
    {
      entries := map[];
    }

    /** What run does after each backend group: a fresh, empty map. */
    method Clear()
      modifies this
      ensures entries == map[]
    {
      entries := map[];
    }

    /** The start phase of runSingle: nothing when the registry already
        holds a backend; otherwise start one, and record it once it is
        reachable. */
    method StartBackend(tupelo: ContainerConfig, stop: Option<StopHandle>, e: Engine)
      returns (ready: bool, stop': Option<StopHandle>, calls: seq<EngineCall>, ghost daemonOrder: seq<string>)
      modifies this
      ensures LaunchBackend(old(entries), tupelo, stop, e) == Launch(ready, entries, stop')
      ensures IsKeyOrder(daemonOrder, tupelo.env.Keys)
      ensures calls == LaunchCalls(old(entries), tupelo, e, daemonOrder)
    {
      if |entries| != 0 {
        ready, stop', calls := true, stop, [];
        daemonOrder := AnyKeyOrder(tupelo.env.Keys);
      } else if tupelo.dockerCompose {
        ready, stop', calls := StartCompose(stop, e);
        daemonOrder := AnyKeyOrder(tupelo.env.Keys);
      } else {
        ready, stop', calls, daemonOrder := StartDaemon(tupelo, stop, e);
      }
    }

    /** docker-compose up, then wait for both containers' addresses and
        for their ports to open. */
    method StartCompose(stop: Option<StopHandle>, e: Engine)
      returns (ready: bool, stop': Option<StopHandle>, calls: seq<EngineCall>)
      modifies this
      ensures ComposeLaunch(old(entries), stop, e) == Launch(ready, entries, stop')
      ensures calls == ComposeCalls(e)
    {
      ready, stop', calls := false, stop, [ComposeUp];
      if !e.composeUp {
        return;
      }
      stop' := Some(ComposeDown);
      calls := calls + [Inspect("bootstrap")];
      if e.bootstrapIP.None? {
        return;
      }
      var bootstrapperIP := e.bootstrapIP.value;
      calls := calls + [Inspect("rpc-server")];
      if e.rpcServerIP.None? {
        return;
      }
      var rpcServerIP := e.rpcServerIP.value;
      entries := entries[NetworkKey := ComposeNetwork];
      if e.dockerHost.None? {
        return;
      }
      var dockerHost := e.dockerHost.value;
      calls := calls + [WaitForPorts(DiscoverHost([dockerHost, bootstrapperIP], BootstrapPort),
                                     DiscoverHost([dockerHost, rpcServerIP], RpcPort))];
      if !e.portsOpen {
        return;
      }
      entries := entries[RpcServerKey := rpcServerIP];
      entries := entries[BootstrapperKey := bootstrapperIP];
      ready := true;
    }

    /** docker run -d the backend image (pulled first unless it was built
        locally), then wait for its address. */
    method StartDaemon(tupelo: ContainerConfig, stop: Option<StopHandle>, e: Engine)
      returns (ready: bool, stop': Option<StopHandle>, calls: seq<EngineCall>, ghost daemonOrder: seq<string>)
      modifies this
      ensures DaemonLaunch(old(entries), stop, e) == Launch(ready, entries, stop')
      ensures IsKeyOrder(daemonOrder, tupelo.env.Keys)
      ensures calls == DaemonCalls(tupelo, e, daemonOrder)
    {
      ready, stop', calls := false, stop, [];
      if tupelo.build == "" {
        calls := calls + [Pull(tupelo.image)];
      }
      var args;
      args, daemonOrder := DockerRunArgs(tupelo, true);
      calls := calls + [RunDaemon(args)];
      if e.containerId.None? {
        return;
      }
      var containerId := e.containerId.value;
      stop' := Some(RemoveContainer(containerId));
      calls := calls + [Inspect(containerId)];
      if e.containerIP.None? {
        return;
      }
      entries := entries[RpcServerKey := e.containerIP.value];
      entries := entries[BootstrapperKey := ""];
      ready := true;
    }

    /** runSingle: start the backend if the registry is empty, then run the
        tester against it with the connection variables injected. Returns
        the status code, the tester as updated in place, the backend's
        StopFunc, and the calls made. */
    method RunSingle(tester: ContainerConfig, tupelo: ContainerConfig, stop: Option<StopHandle>, e: Engine)
      returns (code: int, tester': ContainerConfig, stop': Option<StopHandle>, calls: seq<EngineCall>,
               ghost daemonOrder: seq<string>, ghost testerOrder: seq<string>)
      modifies this
      ensures var l := LaunchBackend(old(entries), tupelo, stop, e);
        entries == l.entries && stop' == l.stop && code == PairCode(l.ready, e) &&
        tester' == (if l.ready then Inject(tester, l.entries, GetVersion(tupelo.image, e.versionOutput)) else tester)
      ensures IsKeyOrder(daemonOrder, tupelo.env.Keys) && IsKeyOrder(testerOrder, tester'.env.Keys)
      ensures calls == LaunchCalls(old(entries), tupelo, e, daemonOrder) +
        (if LaunchBackend(old(entries), tupelo, stop, e).ready then TesterCalls(tester', tupelo, testerOrder) else [])
    {
      var ready;
      ready, stop', calls, daemonOrder := StartBackend(tupelo, stop, e);
      tester' := tester;
      testerOrder := AnyKeyOrder(tester.env.Keys);
      if !ready {
        code := 1;
        return;
      }

      calls := calls + [RunVersion(tupelo.image)];
      var version := GetVersion(tupelo.image, e.versionOutput);

      tester' := Inject(tester, entries, version);

      if tester'.build == "" {
        calls := calls + [Pull(tester'.image)];
      }
      var args;
      args, testerOrder := DockerRunArgs(tester', false);
      calls := calls + [RunForeground(args)];
      code := if e.testerPassed then 0 else 1;
    }
  }
}
