/**
 The intake queue and the background worker, with the goroutine and channel replaced by a
 sequence and a step function. A blocked send is a precondition that the queue has room;
 a blocked receive is a precondition that it is not empty. `git` and the stack walker are
 oracle outcomes.
 */
module Processor {
  import opened Wrappers
  import opened Files
  import Storage

  /** Buffer size of the identifier channel. */
  const Capacity: nat := 100

  const ToolName := "minidump_stackwalk"

  /** Symbol sub-directories handed to the stack walker, in argument order. */
  const SymbolPlatforms: seq<string> := ["linux32", "linux64", "osx", "windows"]

  /** The startup flags the worker reads. */
  datatype Config = Config(dumpDirectory: string, symbolsDirectory: string)

  /** An external program and its arguments. */
  datatype Invocation = Invocation(program: string, args: seq<string>)

  /**
   What happens when the stack walker is run: whether the stdout pipe can be set up,
   whether the process starts, the outcome of reading stdout to the end, and whether it
   exits cleanly.
   */
  datatype CommandRun = CommandRun(pipeOk: bool, startOk: bool, stdout: Option<Bytes>, waitOk: bool)

  datatype CommandError = PipeFailed | StartFailed | ReadFailed | WaitFailed

  /** Oracle outcomes for one worker iteration. */
  datatype StepEnv = StepEnv(pullOk: bool, tool: CommandRun, traceWriteOk: bool)

  datatype StepOutcome = TraceWritten | ToolFailed(error: CommandError) | TraceWriteFailed

  /** The state after one iteration and the commands it issued, in the order it issued them. */
  datatype StepResult = StepResult(
    queue: seq<string>,
    disk: Disk,
    commands: seq<Invocation>,
    outcome: StepOutcome)

  /** Sends an identifier on the channel; the caller would block while it is full. */
  function ProcessCrashreport(queue: seq<string>, id: string): (q: seq<string>)
    requires |queue| < Capacity
    ensures |q| <= Capacity
    ensures |q| == |queue| + 1 && q[..|queue|] == queue && q[|queue|] == id
  {
    queue + [id]
  }

  /** The captured stdout, present only if pipe, start, read and wait all succeed. */
  function ReadAllFromCommand(run: CommandRun): (r: Result<Bytes, CommandError>)
    ensures r.Ok? <==> run.pipeOk && run.startOk && run.stdout.Some? && run.waitOk
    ensures r.Ok? ==> r.value == run.stdout.value
  {
    if !run.pipeOk then Err(PipeFailed)
    else if !run.startOk then Err(StartFailed)
    else if run.stdout.None? then Err(ReadFailed)
    else if !run.waitOk then Err(WaitFailed)
    else Ok(run.stdout.value)
  }

  /** Updates the symbol repository in place. */
  function PullGit(repository: string): (r: Invocation)
    ensures r.program == "git" && r.args == ["-C", repository, "pull"]
  {
    Invocation("git", ["-C", repository, "pull"])
  }

  function BaseFilename(cfg: Config, id: string): string {
    cfg.dumpDirectory + "/" + id
  }

  function MinidumpFilename(cfg: Config, id: string): string {
    BaseFilename(cfg, id) + ".dmp"
  }

  function StacktraceFilename(cfg: Config, id: string): string {
    BaseFilename(cfg, id) + ".trace"
  }

  function SymbolDirectories(cfg: Config): seq<string> {
    seq(|SymbolPlatforms|, i requires 0 <= i < |SymbolPlatforms| => cfg.symbolsDirectory + "/" + SymbolPlatforms[i])
  }

  function Stackwalk(cfg: Config, id: string): Invocation {
    Invocation(ToolName, [MinidumpFilename(cfg, id)] + SymbolDirectories(cfg))
  }

  /**
   The worker reads the dump exactly where the upload stored it, and the trace never
   lands on a stored artifact of any upload.
   */
  lemma WorkerPathsMatchStorage(cfg: Config, id: string, other: string)
    ensures MinidumpFilename(cfg, id) == Storage.DumpPath(cfg.dumpDirectory, id)
    ensures StacktraceFilename(cfg, id) != Storage.DumpPath(cfg.dumpDirectory, other)
    ensures StacktraceFilename(cfg, id) != Storage.JsonPath(cfg.dumpDirectory, other)
    ensures StacktraceFilename(cfg, id) == StacktraceFilename(cfg, other) <==> id == other
  {
    var dir := cfg.dumpDirectory;
    DifferentLastChar(BaseFilename(cfg, id), ".trace", Storage.BaseName(dir, other), ".dmp");
    DifferentLastChar(BaseFilename(cfg, id), ".trace", Storage.BaseName(dir, other), ".json");
    FrameCancel(dir + "/", id, other, ".trace");
  }

  /** The stack walker's command line: the dump path, then the four platform symbol directories. */
  lemma StackwalkArguments(cfg: Config, id: string)
    ensures var inv := Stackwalk(cfg, id);
      && inv.program == ToolName
      && inv.args == [
        Storage.DumpPath(cfg.dumpDirectory, id),
        cfg.symbolsDirectory + "/linux32",
        cfg.symbolsDirectory + "/linux64",
        cfg.symbolsDirectory + "/osx",
        cfg.symbolsDirectory + "/windows"]
  {
    WorkerPathsMatchStorage(cfg, id, id);
    var dirs := SymbolDirectories(cfg);
    assert dirs[0] == cfg.symbolsDirectory + "/linux32" && dirs[1] == cfg.symbolsDirectory + "/linux64";
    assert dirs[2] == cfg.symbolsDirectory + "/osx" && dirs[3] == cfg.symbolsDirectory + "/windows";
  }

  /**
   One loop iteration: take the head identifier, pull the symbol repository (its
   outcome is ignored), then run the stack walker on the dump and, if that succeeds, write
   its stdout to the `.trace` file. The identifier is never put back.
   */
  function WorkerStep(queue: seq<string>, disk: Disk, cfg: Config, env: StepEnv): (r: StepResult)
    requires |queue| > 0
    ensures r.queue == queue[1..]
    ensures r.commands == [PullGit(cfg.symbolsDirectory), Stackwalk(cfg, queue[0])]
    ensures r.outcome == TraceWritten <==>
      env.tool.pipeOk && env.tool.startOk && env.tool.stdout.Some? && env.tool.waitOk && env.traceWriteOk
    ensures r.outcome.ToolFailed? <==> !(env.tool.pipeOk && env.tool.startOk && env.tool.stdout.Some? && env.tool.waitOk)
    ensures r.outcome.ToolFailed? ==> r.outcome.error == ReadAllFromCommand(env.tool).error
    ensures r.outcome == TraceWritten ==>
      r.disk == disk[StacktraceFilename(cfg, queue[0]) := env.tool.stdout.value]
    ensures r.outcome != TraceWritten ==> r.disk == disk  // so a failed tool run creates no trace
  {
    var id := queue[0];
    // The pull always runs first; a failed pull is only logged, so env.pullOk
    // does not influence anything below.
    var commands := [PullGit(cfg.symbolsDirectory), Stackwalk(cfg, id)];
    WorkerPathsMatchStorage(cfg, id, id);
    match ReadAllFromCommand(env.tool)
    case Err(e) => StepResult(queue[1..], disk, commands, ToolFailed(e))
    case Ok(stdout) =>
      if !env.traceWriteOk then StepResult(queue[1..], disk, commands, TraceWriteFailed)
      else StepResult(queue[1..], disk[StacktraceFilename(cfg, id) := stdout], commands, TraceWritten)
  }

  /** Whether the symbol repository was updated or not, the iteration does the same. */
  lemma PullOutcomeIgnored(queue: seq<string>, disk: Disk, cfg: Config, tool: CommandRun, traceWriteOk: bool)
    requires |queue| > 0
    ensures WorkerStep(queue, disk, cfg, StepEnv(true, tool, traceWriteOk))
         == WorkerStep(queue, disk, cfg, StepEnv(false, tool, traceWriteOk))
    ensures WorkerStep(queue, disk, cfg, StepEnv(false, tool, traceWriteOk)).commands[1] == Stackwalk(cfg, queue[0])
  {
  }

  /** State after several iterations, with the identifiers handled, in handling order. */
  datatype Run = Run(queue: seq<string>, disk: Disk, processed: seq<string>)

  /**
   Runs one iteration per oracle entry. Identifiers are handled strictly in queue order,
   and every file the run creates or changes is the trace of a handled identifier.
   */
  function RunWorker(queue: seq<string>, disk: Disk, cfg: Config, envs: seq<StepEnv>): (r: Run)
    requires |envs| <= |queue|
    ensures r.processed == queue[..|envs|]
    ensures r.queue == queue[|envs|..]
    ensures disk.Keys <= r.disk.Keys
    ensures forall p :: p in r.disk && (p !in disk || r.disk[p] != disk[p]) ==>
      exists i :: 0 <= i < |r.processed| && p == StacktraceFilename(cfg, r.processed[i])
    decreases |envs|
  {
    if |envs| == 0 then Run(queue, disk, [])
    else
      var step := WorkerStep(queue, disk, cfg, envs[0]);
      var rest := RunWorker(step.queue, step.disk, cfg, envs[1..]);
      assert queue[..|envs|] == [queue[0]] + queue[1..][..|envs| - 1];
      var r := Run(rest.queue, rest.disk, [queue[0]] + rest.processed);
      assert forall p :: p in r.disk && (p !in disk || r.disk[p] != disk[p]) ==>
        exists i :: 0 <= i < |r.processed| && p == StacktraceFilename(cfg, r.processed[i])
      by {
        forall p | p in r.disk && (p !in disk || r.disk[p] != disk[p])
          ensures exists i :: 0 <= i < |r.processed| && p == StacktraceFilename(cfg, r.processed[i])
        {
          if p !in step.disk || r.disk[p] != step.disk[p] {
            var i :| 0 <= i < |rest.processed| && p == StacktraceFilename(cfg, rest.processed[i]);
            assert r.processed[i + 1] == rest.processed[i];
          } else {
            assert p == StacktraceFilename(cfg, queue[0]);
            assert r.processed[0] == queue[0];
          }
        }
      }
      r
  }

  /**
   An identifier sent on the queue is handled after everything already queued: one
   iteration per queued identifier handles the old queue, then the new identifier, and
   leaves the queue empty.
   */
  lemma EnqueuedHandledAfterEarlierIds(queue: seq<string>, id: string, disk: Disk, cfg: Config, envs: seq<StepEnv>)
    requires |queue| < Capacity
    requires |envs| == |queue| + 1
    ensures var run := RunWorker(ProcessCrashreport(queue, id), disk, cfg, envs);
      && run.processed == queue + [id]
      && run.queue == []
  {
    var q := ProcessCrashreport(queue, id);
    assert q == queue + [id];
    assert q[..|envs|] == q;
  }
}
