/** loadConfig after the YAML document has been decoded: the two historical
    layouts of the file collapse into one list of backends ("tupelos") and
    one list of testers. */
module LoadConfig {
  import opened Container
  import Strings

  /** The current layout: named backend and tester entries. */
  datatype YamlV2 = YamlV2(tupelos: map<string, ContainerConfig>, testers: map<string, ContainerConfig>)

  /** The first layout: backend image lines ("image arg arg ...") and one tester. */
  datatype YamlV1 = YamlV1(tupeloImages: seq<string>, tester: ContainerConfig)

  /** The normalised configuration the runner works on. */
  datatype Config = Config(tupelos: seq<ContainerConfig>, testers: seq<ContainerConfig>)

  /** A version-2 entry as loadConfig copies it: the map key becomes the name;
      build, image and command are kept; docker-compose is kept for backends
      only; env and network are dropped. */
  function NamedEntry(name: string, entry: ContainerConfig, isTupelo: bool): ContainerConfig {
    Blank.(name := name, build := entry.build, image := entry.image, command := entry.command,
           dockerCompose := isTupelo && entry.dockerCompose)
  }

  /** `configs` holds one entry per name of `entries`, each the copy of the
      entry under its name. */
  ghost predicate IsNamedCopy(configs: seq<ContainerConfig>, entries: map<string, ContainerConfig>, isTupelo: bool) {
    |configs| == |entries| &&
    (forall i :: 0 <= i < |configs| ==>
       configs[i].name in entries && configs[i] == NamedEntry(configs[i].name, entries[configs[i].name], isTupelo)) &&
    (forall n :: n in entries ==> exists i :: 0 <= i < |configs| && configs[i].name == n)
  }

  /** One loop of loadConfig over a version-2 map, visiting the names in an
      order the model leaves open. */
  method NamedEntries(entries: map<string, ContainerConfig>, isTupelo: bool) returns (configs: seq<ContainerConfig>)
    ensures IsNamedCopy(configs, entries, isTupelo)
  {
    configs := [];
    var rest := entries.Keys;
    while rest != {}
      invariant rest <= entries.Keys
      invariant |configs| + |rest| == |entries|
      invariant forall i :: 0 <= i < |configs| ==>
        configs[i].name in entries && configs[i].name !in rest &&
        configs[i] == NamedEntry(configs[i].name, entries[configs[i].name], isTupelo)
      invariant forall n :: n in entries && n !in rest ==> exists i :: 0 <= i < |configs| && configs[i].name == n
      decreases rest
    {
      var n :| n in rest;
      ghost var before := configs;
      configs := configs + [NamedEntry(n, entries[n], isTupelo)];
      rest := rest - {n};
      forall m | m in entries && m !in rest ensures exists i :: 0 <= i < |configs| && configs[i].name == m {
        if m == n {
          assert configs[|configs| - 1].name == m;
        } else {
          var i :| 0 <= i < |before| && before[i].name == m;
          assert configs[i].name == m;
        }
      }
    }
  }

  /** A version-1 image line: the text before the first space is the image,
      the other space-separated pieces are the command. */
  function ImageLine(line: string): ContainerConfig {
    var pieces := Strings.Split(line, ' ');
    Blank.(image := pieces[0], command := pieces[1..])
  }

  /** Splitting an image line loses nothing: the image and the command
      joined with single spaces give back the line, and no piece has a space. */
  lemma ImageLineRoundTrip(line: string)
    ensures var c := ImageLine(line);
      Strings.Join([c.image] + c.command, ' ') == line &&
      ' ' !in c.image && forall i :: 0 <= i < |c.command| ==> ' ' !in c.command[i]
  {
    var pieces := Strings.Split(line, ' ');
    assert [pieces[0]] + pieces[1..] == pieces;
    Strings.JoinSplit(line, ' ');
  }

  /** Conversely, an image and command pieces without spaces are exactly what
      the line made of them splits back into. */
  lemma ImageLineOfJoined(image: string, command: seq<string>)
    requires ' ' !in image && forall i :: 0 <= i < |command| ==> ' ' !in command[i]
    ensures ImageLine(Strings.Join([image] + command, ' ')) == Blank.(image := image, command := command)
  {
    var pieces := [image] + command;
    Strings.SplitJoin(pieces, ' ');
    assert pieces[1..] == command;
  }

  /** The version-1 loop: one backend per image line, in order. */
  method ImageLines(lines: seq<string>) returns (tupelos: seq<ContainerConfig>)
    ensures |tupelos| == |lines|
    ensures forall i :: 0 <= i < |lines| ==> tupelos[i] == ImageLine(lines[i])
  {
    tupelos := [];
    for i := 0 to |lines|
      invariant |tupelos| == i
      invariant forall k :: 0 <= k < i ==> tupelos[k] == ImageLine(lines[k])
    {
      tupelos := tupelos + [ImageLine(lines[i])];
    }
  }

  /** loadConfig on the decoded documents. A file with at least one named
      backend is read in the current layout; otherwise in the first layout,
      whose single tester is taken as it is. */
  method Load(v2: YamlV2, v1: YamlV1) returns (cfg: Config)
    ensures |v2.tupelos| > 0 ==> IsNamedCopy(cfg.tupelos, v2.tupelos, true)
    ensures |v2.tupelos| > 0 ==> IsNamedCopy(cfg.testers, v2.testers, false)
    ensures |v2.tupelos| == 0 ==> |cfg.tupelos| == |v1.tupeloImages|
    ensures |v2.tupelos| == 0 ==> forall i :: 0 <= i < |cfg.tupelos| ==> cfg.tupelos[i] == ImageLine(v1.tupeloImages[i])
    ensures |v2.tupelos| == 0 ==> cfg.testers == [v1.tester]
  {
    if |v2.tupelos| > 0 {
      var testers := NamedEntries(v2.testers, false);
      var tupelos := NamedEntries(v2.tupelos, true);
      return Config(tupelos, testers);
    }
    var tupelos := ImageLines(v1.tupeloImages);
    cfg := Config(tupelos, [v1.tester]);
  }
}
