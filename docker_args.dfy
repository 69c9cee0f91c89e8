/** The argument list of `docker run` (dockerRunArgs). */
module DockerArgs {
  import opened Container

  /** `order` lists every key of `keys` and has one entry per key, so each
      key appears exactly once: one possible iteration order of a Go map,
      which the language leaves unspecified. */
  ghost predicate IsKeyOrder(order: seq<string>, keys: set<string>) {
    |order| == |keys| && forall k :: k in keys <==> k in order
  }

  /** Some order of the keys, for the calls that never build an argument list. */
  ghost function AnyKeyOrder(keys: set<string>): (order: seq<string>)
    ensures IsKeyOrder(order, keys)
    decreases keys
  {
    if keys == {} then []
    else
      var k :| k in keys;
      AnyKeyOrder(keys - {k}) + [k]
  }

  /** The `-e` argument for one variable, as fmt.Sprintf("%s=%s", k, v). */
  function Assignment(k: string, v: string): string { k + "=" + v }

  /** The `-e k=v` pairs for the variables of `env`, in the order `order`. */
  function EnvFlags(order: seq<string>, env: map<string, string>): (flags: seq<string>)
    requires forall k :: k in order ==> k in env
    ensures |flags| == 2 * |order|
  {
    if order == [] then []
    else
      var k := order[|order| - 1];
      EnvFlags(order[..|order| - 1], env) + ["-e", Assignment(k, env[k])]
  }

  /** The i-th variable of the order sits at positions 2i and 2i+1 of the flags. */
  lemma {:induction false} EnvFlagsAt(order: seq<string>, env: map<string, string>, i: nat)
    requires forall k :: k in order ==> k in env
    requires i < |order|
    ensures EnvFlags(order, env)[2 * i] == "-e"
    ensures EnvFlags(order, env)[2 * i + 1] == Assignment(order[i], env[order[i]])
  {
    var init := order[..|order| - 1];
    if i < |init| {
      EnvFlagsAt(init, env, i);
      assert init[i] == order[i];
    }
  }

  /** The mode flag: detached for a backend, removed on exit for a tester. */
  function ModeFlag(daemon: bool): string { if daemon then "-d" else "--rm" }

  /** The `--net` pair, present only when a network is named. */
  function NetFlags(network: string): seq<string> {
    if network != "" then ["--net", network] else []
  }

  /** The argument list dockerRunArgs builds when it visits the environment
      in the order `order`. */
  function RunArgs(cfg: ContainerConfig, daemon: bool, order: seq<string>): seq<string>
    requires forall k :: k in order ==> k in cfg.env
  {
    ["run", ModeFlag(daemon)] + EnvFlags(order, cfg.env) + NetFlags(cfg.network) + [cfg.image] + cfg.command
  }

  /** Whatever order the environment is visited in, the arguments are `run`,
      the mode flag, one `-e k=v` pair per variable, `--net` and the network
      exactly when one is named, and then the image followed by the command. */
  lemma RunArgsLayout(cfg: ContainerConfig, daemon: bool, order: seq<string>)
    requires IsKeyOrder(order, cfg.env.Keys)
    ensures var args := RunArgs(cfg, daemon, order);
      var e := 2 + 2 * |cfg.env|;
      |args| == e + |NetFlags(cfg.network)| + 1 + |cfg.command| &&
      args[..2] == ["run", ModeFlag(daemon)] &&
      (forall i :: 0 <= i < |order| ==>
         args[2 + 2 * i] == "-e" && args[3 + 2 * i] == Assignment(order[i], cfg.env[order[i]])) &&
      (cfg.network != "" ==> args[e..e + 2] == ["--net", cfg.network]) &&
      (cfg.network == "" ==> args[e] == cfg.image) &&
      args[|args| - |cfg.command| - 1..] == [cfg.image] + cfg.command
  {
    var head := ["run", ModeFlag(daemon)];
    var flags := EnvFlags(order, cfg.env);
    var tail := NetFlags(cfg.network) + [cfg.image] + cfg.command;
    var args := RunArgs(cfg, daemon, order);
    assert args == head + flags + tail;
    assert |flags| == 2 * |cfg.env|;
    EnvSection(head, flags, tail, order, cfg.env);
    TailSection(head + flags, cfg.network, cfg.image, cfg.command);
  }

  /** Positions of the `-e` pairs inside a full argument list. */
  lemma EnvSection(head: seq<string>, flags: seq<string>, tail: seq<string>,
                   order: seq<string>, env: map<string, string>)
    requires |head| == 2
    requires forall k :: k in order ==> k in env
    requires flags == EnvFlags(order, env)
    ensures (head + flags + tail)[..2] == head
    ensures forall i :: 0 <= i < |order| ==>
      (head + flags + tail)[2 + 2 * i] == "-e" &&
      (head + flags + tail)[3 + 2 * i] == Assignment(order[i], env[order[i]])
  {
    var args := head + flags + tail;
    assert args[..2] == head;
    forall i | 0 <= i < |order|
      ensures args[2 + 2 * i] == "-e" && args[3 + 2 * i] == Assignment(order[i], env[order[i]])
    {
      EnvFlagsAt(order, env, i);
      assert args[2 + 2 * i] == flags[2 * i];
      assert args[3 + 2 * i] == flags[2 * i + 1];
    }
  }

  /** What follows the `-e` pairs: the `--net` pair if any, the image, the command. */
  lemma TailSection(front: seq<string>, network: string, image: string, command: seq<string>)
    ensures var args := front + NetFlags(network) + [image] + command;
      var e := |front|;
      |args| == e + |NetFlags(network)| + 1 + |command| &&
      (network != "" ==> args[e..e + 2] == ["--net", network]) &&
      (network == "" ==> args[e] == image) &&
      args[|args| - |command| - 1..] == [image] + command
  {
    var args := front + NetFlags(network) + [image] + command;
    assert args == front + (NetFlags(network) + [image] + command);
    assert args == (front + NetFlags(network)) + ([image] + command);
  }

  /** The loop of dockerRunArgs over the environment: one `-e k=v` pair per
      variable, visiting the keys in an order the model leaves open. */
  method EnvArgs(env: map<string, string>) returns (flags: seq<string>, ghost order: seq<string>)
    ensures IsKeyOrder(order, env.Keys)
    ensures flags == EnvFlags(order, env)
    ensures |flags| == 2 * |env|
  {
    flags := [];
    order := [];
    var rest := env.Keys;
    while rest != {}
      invariant forall k :: k in env.Keys <==> k in rest || k in order
      invariant forall k :: k in rest ==> k !in order
      invariant |order| + |rest| == |env.Keys|
      invariant forall k :: k in order ==> k in env
      invariant flags == EnvFlags(order, env)
      decreases rest
    {
      var k :| k in rest;
      ghost var before := order;
      flags := flags + ["-e", Assignment(k, env[k])];
      order := order + [k];
      rest := rest - {k};
      assert order[..|order| - 1] == before;
    }
  }

  /** dockerRunArgs: `run`, the mode flag, the environment, the network,
      the image and the command, appended in that order. */
  method DockerRunArgs(cfg: ContainerConfig, daemon: bool) returns (args: seq<string>, ghost order: seq<string>)
    ensures IsKeyOrder(order, cfg.env.Keys)
    ensures args == RunArgs(cfg, daemon, order)
  {
    args := ["run"];
    if daemon {
      args := args + ["-d"];
    } else {
      args := args + ["--rm"];
    }
    var flags;
    flags, order := EnvArgs(cfg.env);
    args := args + flags;
    if cfg.network != "" {
      args := args + ["--net", cfg.network];
    }
    args := args + [cfg.image];
    args := args + cfg.command;
  }
}
