/**
 * How `POST /run` launches the sandbox: one `docker run` whose argument vector
 * is fixed, with the submitted code delivered only on the process's stdin.
 */
module Sandbox {
  import opened JsValues
  import opened Messages
  import InputGate

  const DockerCommand := "docker"
  const Image := "gcc:latest"
  const MemoryLimit := "256m"

  /** Written to stdin's file, compiled, and run under `timeout 2` inside the container. */
  const CompileAndRun :=
    "cat > /tmp/main.cpp && g++ /tmp/main.cpp -o /tmp/main 2>&1 && timeout 2 /tmp/main 2>&1"

  /** The isolation options: remove on exit, stdin attached, memory with swap equal to it, one CPU, no network, 64 tasks. */
  const IsolationOptions := [
    "--rm", "-i",
    "--memory=" + MemoryLimit,
    "--memory-swap=" + MemoryLimit,
    "--cpus=1",
    "--network=none",
    "--pids-limit=64"
  ]

  /**
   * `args` runs `Image` with every isolation option given to `docker run`
   * itself (before the image name) and, after it, a `bash -c` of the fixed
   * compile-and-run script.
   */
  predicate RunsIsolated(args: seq<string>, imageAt: nat) {
    0 < imageAt < |args| && args[0] == "run" && args[imageAt] == Image &&
    (forall f :: f in IsolationOptions ==> f in args[1..imageAt]) &&
    args[imageAt + 1..] == ["bash", "-c", CompileAndRun]
  }

  /** The `dockerArgs` array. */
  function DockerArgs(): (args: seq<string>)
    ensures RunsIsolated(args, 8)
  {
    var args := [
      "run", "--rm", "-i",
      "--memory=256m",
      "--memory-swap=256m",
      "--cpus=1",
      "--network=none",
      "--pids-limit=64",
      Image,
      "bash", "-c",
      CompileAndRun];
    assert "--memory=" + MemoryLimit == "--memory=256m";
    assert "--memory-swap=" + MemoryLimit == "--memory-swap=256m";
    assert args[1..8] == IsolationOptions;
    args
  }

  /** What the handler does with a request body: answer at once, or spawn the sandbox. */
  datatype Launch =
    | Answer(response: Response)
    | Spawn(program: string, args: seq<string>, stdin: JsString)

  /**
   * The first half of the handler: the input gate, then
   * `spawn('docker', dockerArgs)` and `proc.stdin.write(code)`.
   */
  function Route(code: JsValue): (r: Launch)
    ensures r.Answer? <==> InputGate.Validate(code).Refuse?
    ensures r.Answer? ==> r.response == InputGate.Validate(code).response
    ensures r.Spawn? ==> r.program == DockerCommand && RunsIsolated(r.args, 8)
    ensures r.Spawn? ==> code.Str? && r.stdin == code.units
  {
    match InputGate.Validate(code)
    case Refuse(response) => Answer(response)
    case Pass(units) => Spawn(DockerCommand, DockerArgs(), units)
  }

  /** The code never reaches the argument vector: any two launched requests spawn the same command. */
  lemma ArgsIndependentOfCode(c1: JsValue, c2: JsValue)
    requires Route(c1).Spawn? && Route(c2).Spawn?
    ensures Route(c1).program == Route(c2).program && Route(c1).args == Route(c2).args
  {
  }
}
