/** The runner's containerConfig: one backend ("tupelo") or tester container. */
module Container {

  /** A container to build or pull and run. `env` models the Go map, with a
      nil map taken to be the empty map; `dockerCompose` marks a backend that
      is a docker-compose stack rather than a single container. */
  datatype ContainerConfig = ContainerConfig(
    name: string,
    build: string,
    image: string,
    command: seq<string>,
    env: map<string, string>,
    dockerCompose: bool,
    network: string)

  /** The teardown closure stored in StopFunc once a backend has started:
      bring the compose stack down, or remove the daemon container. */
  datatype StopHandle = ComposeDown | RemoveContainer(containerId: string)

  /** A config with every field at its Go zero value. */
  const Blank := ContainerConfig("", "", "", [], map[], false, "")

  /** The name shown in log lines (containerConfig.String): the first
      non-empty of the name, the image and the build path. */
  function DisplayName(c: ContainerConfig): (shown: string)
    ensures c.name != "" ==> shown == c.name
    ensures c.name == "" && c.image != "" ==> shown == c.image
    ensures c.name == "" && c.image == "" ==> shown == c.build
    ensures shown == "" <==> c.name == "" && c.image == "" && c.build == ""
  {
    if c.name != "" then c.name
    else if c.image != "" then c.image
    else c.build
  }
}
