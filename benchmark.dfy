/**
 * The decisions of the `benchmark` action before it starts a container: which command
 * the worker image runs, which environment variables the job asks for, and the
 * environment and volume lists handed to Docker. Repository and example selection are
 * `Text.FindContaining`.
 */
module Benchmark {
  import opened Wrappers
  import opened Text
  import opened Dockerfile

  // ---------------------------------------------------------------- container command

  /** Index of the first `CMD` instruction. */
  function FirstCmd(instructions: Instructions): (r: Option<nat>)
    ensures r.Some? ==> r.value < |instructions| && instructions[r.value].Cmd?
    ensures r.Some? ==> forall j :: 0 <= j < r.value ==> !instructions[j].Cmd?
    ensures r.None? ==> forall j :: 0 <= j < |instructions| ==> !instructions[j].Cmd?
    decreases |instructions|
  {
    if instructions == [] then None
    else if instructions[0].Cmd? then Some(0)
    else match FirstCmd(instructions[1..])
      case None => None
      case Some(k) => Some(k + 1)
  }

  predicate AllText(components: seq<BreakableComponent>) {
    forall i :: 0 <= i < |components| ==> components[i].StringPart?
  }

  /**
   * `parse_command`: the command of the first `CMD` instruction, the exec form as
   * given, the shell form as the texts of its pieces in order. The source treats a
   * Dockerfile without `CMD`, and a shell form holding a comment piece, as unreachable.
   */
  function ParseCommand(instructions: Instructions): (command: seq<string>)
    requires FirstCmd(instructions).Some?
    requires var cmd := instructions[FirstCmd(instructions).value].cmd;
      cmd.Shell? ==> AllText(cmd.components)
    ensures var cmd := instructions[FirstCmd(instructions).value].cmd;
      (cmd.Exec? ==> command == cmd.commands) &&
      (cmd.Shell? ==> |command| == |cmd.components|) &&
      (cmd.Shell? ==> forall i :: 0 <= i < |command| ==> StringPart(command[i]) == cmd.components[i])
  {
    match instructions[FirstCmd(instructions).value].cmd
    case Exec(commands) => commands
    case Shell(components) => seq(|components|, i requires 0 <= i < |components| => components[i].content)
  }

  /** Instructions after the first `CMD` (a second `CMD` included) do not change the command. */
  lemma {:induction false} ParseCommandIgnoresLater(a: Instructions, b: Instructions)
    requires FirstCmd(a).Some?
    requires var cmd := a[FirstCmd(a).value].cmd; cmd.Shell? ==> AllText(cmd.components)
    ensures FirstCmd(a + b) == FirstCmd(a)
    ensures ParseCommand(a + b) == ParseCommand(a)
    decreases |a|
  {
    if !a[0].Cmd? {
      assert (a + b)[1..] == a[1..] + b;
      ParseCommandIgnoresLater(a[1..], b);
    }
  }

  // ---------------------------------------------------------------- environment

  /** A job parameter value, as far as `parse_envs` looks at it. */
  datatype JsonValue = JsonString(text: string) | JsonOther

  /** A job parameter: where it is stored (default "value") and its value. */
  datatype Parameter = Parameter(id: string, store: Option<string>, value: Option<JsonValue>)

  /** A parameter asks for an environment variable when its store mentions "environment". */
  predicate Selected(p: Parameter) {
    Contains(p.store.UnwrapOr("value"), "environment")
  }

  /** A selected parameter names a variable: its value is a string. */
  predicate NamesVariable(p: Parameter) {
    p.value.Some? && p.value.value.JsonString?
  }

  /** The variable names the job's selected parameters ask for. */
  function SelectedNames(parameters: seq<Parameter>): set<string> {
    set p | p in parameters && Selected(p) && NamesVariable(p) :: p.value.value.text
  }

  /**
   * `parse_envs`: each selected parameter's value names a variable, which maps to its
   * value in `envs` (the user's JSON object). The source unwraps the parameter value,
   * its string form and the lookup, so each must succeed.
   */
  function ParseEnvs(parameters: seq<Parameter>, envs: map<string, string>): (r: map<string, string>)
    requires forall i :: 0 <= i < |parameters| && Selected(parameters[i]) ==>
      NamesVariable(parameters[i]) && parameters[i].value.value.text in envs
    ensures r.Keys == SelectedNames(parameters)
    ensures forall name :: name in r ==> name in envs && r[name] == envs[name]
    decreases |parameters|
  {
    if parameters == [] then map[]
    else
      var init, p := parameters[..|parameters| - 1], parameters[|parameters| - 1];
      assert parameters == init + [p];
      assert Selected(p) ==> NamesVariable(parameters[|parameters| - 1]);
      var r := ParseEnvs(init, envs);
      if Selected(p) then r[p.value.value.text := envs[p.value.value.text]] else r
  }

  // ---------------------------------------------------------------- container lists

  /** The environment entry for one variable: `key=value`. */
  function EnvEntry(env: (string, string)): string {
    env.0 + "=" + env.1
  }

  /** The volume for one variable's value, mounted at the same path: `value:value`. */
  function VolumeEntry(env: (string, string)): string {
    env.1 + ":" + env.1
  }

  /**
   * The environment and volume lists of `create_container`: the job file and debug
   * logging first, the example mounted at "/examples/job.json", then per variable (in
   * the map's iteration order, here the order of `envs`) a `key=value` entry and a
   * `value:value` volume.
   */
  method ContainerLists(examplePath: string, envs: seq<(string, string)>)
    returns (environmentVariables: seq<string>, volumes: seq<string>)
    ensures |environmentVariables| == 2 + |envs| && |volumes| == 1 + |envs|
    ensures environmentVariables[..2] == ["SOURCE_ORDERS=/examples/job.json", "RUST_LOG=debug"]
    ensures volumes[0] == examplePath + ":/examples/job.json"
    ensures forall i :: 0 <= i < |envs| ==>
      environmentVariables[2 + i] == EnvEntry(envs[i]) && volumes[1 + i] == VolumeEntry(envs[i])
  {
    environmentVariables := ["SOURCE_ORDERS=/examples/job.json", "RUST_LOG=debug"];
    volumes := [examplePath + ":/examples/job.json"];
    var i := 0;
    while i < |envs|
      invariant i <= |envs|
      invariant |environmentVariables| == 2 + i && |volumes| == 1 + i
      invariant environmentVariables[..2] == ["SOURCE_ORDERS=/examples/job.json", "RUST_LOG=debug"]
      invariant volumes[0] == examplePath + ":/examples/job.json"
      invariant forall j :: 0 <= j < i ==>
        environmentVariables[2 + j] == EnvEntry(envs[j]) && volumes[1 + j] == VolumeEntry(envs[j])
    {
      var (key, val) := envs[i];
      environmentVariables := environmentVariables + [key + "=" + val];
      volumes := volumes + [val + ":" + val];
      i := i + 1;
    }
  }
}
