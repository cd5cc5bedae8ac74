/**
 The whole service as one sequential state machine: the queue of identifiers and the
 dump directory, changed by upload requests and by worker iterations. The invariant
 `Valid` is the disk-is-the-join contract: whatever is queued has both stored artifacts,
 and a trace only ever sits next to its dump.
 */
module Pipeline {
  import opened Wrappers
  import opened Files
  import Storage
  import Processor
  import Server

  datatype State = State(queue: seq<string>, disk: Disk)

  ghost predicate Valid(cfg: Processor.Config, s: State) {
    && |s.queue| <= Processor.Capacity
    && (forall i :: 0 <= i < |s.queue| ==>
          && Storage.IsReportId(s.queue[i])
          && Storage.JsonPath(cfg.dumpDirectory, s.queue[i]) in s.disk
          && Storage.DumpPath(cfg.dumpDirectory, s.queue[i]) in s.disk)
    && (forall id :: Processor.StacktraceFilename(cfg, id) in s.disk ==>
          && Storage.JsonPath(cfg.dumpDirectory, id) in s.disk
          && Storage.DumpPath(cfg.dumpDirectory, id) in s.disk)
  }

  /**
   Serves one upload and performs the queue send it asks for. The send only happens on
   the 200 path, and then exactly once; the request can complete only while the queue has
   room for the identifier it would send.
   */
  function Upload(cfg: Processor.Config, s: State, req: Server.Request, env: Storage.StoreEnv): (r: (Server.Response, State))
    requires req.form.Some? ==> Server.FormFromReader(req.form.value)
    requires |env.random| == Storage.RandomBytes
    requires Server.UploadHandler(req, cfg.dumpDirectory, env, s.disk).enqueue.Some? ==> |s.queue| < Processor.Capacity
    ensures r.0.status == Server.StatusOK ==> r.1.queue == s.queue + [r.0.body]
    ensures r.0.status != Server.StatusOK ==> r.1.queue == s.queue
    ensures r.0.status == Server.StatusBadRequest ==> r.1 == s
  {
    var h := Server.UploadHandler(req, cfg.dumpDirectory, env, s.disk);
    var queue := if h.enqueue.Some? then Processor.ProcessCrashreport(s.queue, h.enqueue.value) else s.queue;
    (h.response, State(queue, h.disk))
  }

  /** One iteration of the worker on the head of the queue. */
  function Work(cfg: Processor.Config, s: State, env: Processor.StepEnv): (r: State)
    requires |s.queue| > 0
    ensures r.queue == s.queue[1..]
    ensures s.disk.Keys <= r.disk.Keys
  {
    var step := Processor.WorkerStep(s.queue, s.disk, cfg, env);
    State(step.queue, step.disk)
  }

  /**
   The service starts with an empty queue over whatever the dump directory already
   holds; the invariant holds as long as every existing trace sits next to its dump and
   metadata.
   */
  lemma InitialValid(cfg: Processor.Config, disk: Disk)
    requires forall id :: Processor.StacktraceFilename(cfg, id) in disk ==>
      Storage.JsonPath(cfg.dumpDirectory, id) in disk && Storage.DumpPath(cfg.dumpDirectory, id) in disk
    ensures Valid(cfg, State([], disk))
  {
  }

  lemma UploadPreservesValid(cfg: Processor.Config, s: State, req: Server.Request, env: Storage.StoreEnv)
    requires req.form.Some? ==> Server.FormFromReader(req.form.value)
    requires |env.random| == Storage.RandomBytes
    requires Server.UploadHandler(req, cfg.dumpDirectory, env, s.disk).enqueue.Some? ==> |s.queue| < Processor.Capacity
    requires Valid(cfg, s)
    ensures Valid(cfg, Upload(cfg, s, req, env).1)
  {
    var dir := cfg.dumpDirectory;
    var h := Server.UploadHandler(req, dir, env, s.disk);
    var t := Upload(cfg, s, req, env).1;
    var x := Storage.GetRandomFilename(env.random);
    forall id | Processor.StacktraceFilename(cfg, id) in t.disk
      ensures Storage.JsonPath(dir, id) in t.disk && Storage.DumpPath(dir, id) in t.disk
    {
      Processor.WorkerPathsMatchStorage(cfg, id, x);
    }
    forall i | 0 <= i < |t.queue|
      ensures Storage.IsReportId(t.queue[i])
      ensures Storage.JsonPath(dir, t.queue[i]) in t.disk && Storage.DumpPath(dir, t.queue[i]) in t.disk
    {
      if i < |s.queue| {
        assert t.queue[i] == s.queue[i];
      }
    }
  }

  lemma WorkPreservesValid(cfg: Processor.Config, s: State, env: Processor.StepEnv)
    requires |s.queue| > 0
    requires Valid(cfg, s)
    ensures Valid(cfg, Work(cfg, s, env))
  {
    var dir := cfg.dumpDirectory;
    var t := Work(cfg, s, env);
    forall id | Processor.StacktraceFilename(cfg, id) in t.disk
      ensures Storage.JsonPath(dir, id) in t.disk && Storage.DumpPath(dir, id) in t.disk
    {
      Processor.WorkerPathsMatchStorage(cfg, id, s.queue[0]);
    }
    forall i | 0 <= i < |t.queue|
      ensures Storage.IsReportId(t.queue[i])
      ensures Storage.JsonPath(dir, t.queue[i]) in t.disk && Storage.DumpPath(dir, t.queue[i]) in t.disk
    {
      assert t.queue[i] == s.queue[i + 1];
    }
  }
}
