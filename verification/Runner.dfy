/** One benchmark run: catalog, adapter, sink and oracle put together (internal/runner/runner.go). */
module Runner {
  import opened Base
  import opened Text
  import opened Redaction
  import opened Identifiers
  import opened Model
  import opened Validation
  import opened CatalogFile
  import opened CatalogCheck
  import opened Sink
  import opened Adapter

  datatype Options = Options(suite: string, sut: string, image: string, allowDangerous: bool, dryRun: bool)

  // ----- the surroundings of a run: every answer they can give -----

  datatype OracleAnswer = NoAnswer(err: ErrText) | NoJson(err: ErrText) | Answer(status: string, level: string)

  /** Around one task: adapter construction, the sink traffic before and after the registration, container commands,
      the oracle as any function of the events it is shown, and the time taken. */
  datatype TaskWorld = TaskWorld(
    adapterFault: Option<ErrText>, before: seq<Section>, create: CreateWorld, exec: ExecWorld, during: seq<Section>,
    destroy: DestroyWorld, oracle: seq<Event> -> OracleAnswer, durationMs: nat)

  /** The processor the program was built for, as the Go runtime names it. */
  type Architecture = s: string | s != "" witness "amd64"

  datatype DescribeWorld = DescribeWorld(
    version: Result<string, ErrText>, info: Result<string, ErrText>, kernel: Option<string>,
    image: Result<string, ErrText>, architecture: Architecture)

  datatype RunError =
    | NotLoadable(load: LoadError)
    | InvalidCatalog
    | UnknownSut(sut: string)
    | NotLinux
    | NoAdapter(err: ErrText)
    | NotDescribed(err: ErrText)
    | NoSink(err: ErrText)
    | NotRegistered(id: string)

  datatype World = World(
    seed: Seed, started: int, ended: int, linux: bool, outerVM: bool, adapterFault: Option<ErrText>,
    describe: DescribeWorld, sinkFault: Option<ErrText>, wording: RunError -> ErrText, tasks: nat -> TaskWorld)

  // ----- the oracle's answer -----

  predicate OracleStatus(s: Status) { s in {Hold, Bypass, Exfil, Lateral, Escape} }

  datatype Verdict = Verdict(status: Status, level: Level) | Refused(err: ErrText)

  function Prefixed(prefix: string, err: ErrText): ErrText { prefix + err }

  function OracleFault(id: string, text: string): ErrText { "oracle " + id + text }

  /** The checks of `runOracle` once the process has returned. */
  function Accepted(id: string, answer: OracleAnswer, count: nat, expected: Level): Verdict {
    match answer
    case NoAnswer(err) => Refused(OracleFault(id, ": " + err))
    case NoJson(err) => Refused(OracleFault(id, " returned invalid JSON: " + err))
    case Answer(statusText, levelText) =>
      var status, level := StatusOf(statusText), LevelOf(levelText);
      if statusText == "" || levelText == "" then Refused(OracleFault(id, " returned incomplete result"))
      else if !OracleStatus(status) || !ValidLevel(level) then
        Refused(OracleFault(id, " returned unknown status or level"))
      else if count == 0 && (status != Hold || level != L0) then
        Refused(OracleFault(id, " reported a result without sink evidence"))
      else if status == Hold && level != L0 then Refused(OracleFault(id, " returned hold with non-zero level"))
      else if status != Hold && (level != expected || status != StatusForLevel(expected)) then
        Refused(OracleFault(id, " returned inconsistent level or status"))
      else Verdict(status, level)
  }

  // ----- one task -----

  datatype Config = Config(runID: string, image: string, allowDangerous: bool, dryRun: bool, outerVM: bool)

  /** What a run has done so far: task results, everything the sink has seen, and the engine. */
  datatype RunState = RunState(results: seq<TaskResult>, trace: seq<Step>, engine: EngineState)

  datatype Progress = Going(st: RunState) | Aborted(st: RunState, error: RunError)

  const GATE_REASON := ("dangerous task requires" + " a Firecracker outer") + (" VM marker and explicit" + " authorization")

  predicate Gated(cfg: Config, task: Task) { task.dangerous && (!cfg.outerVM || !cfg.allowDangerous) }

  function SkippedResult(task: Task, w: TaskWorld, reason: string): TaskResult {
    TaskResult(task.id, task.version, task.digest, Skipped, L0, w.durationMs, [], reason, "")
  }

  function FailedResult(task: Task, w: TaskWorld, evidence: seq<Evidence>, error: string, cleanup: string): TaskResult {
    TaskResult(task.id, task.version, task.digest, Failed, L0, w.durationMs, evidence, error, cleanup)
  }

  function TextOf(err: Option<ErrText>): string { if err.Some? then Sanitized(err.value) else "" }

  /** The result of a task whose container was created: by the command, or by the oracle. */
  function Judged(task: Task, w: TaskWorld, ran: ExecWorld, destroyErr: Option<ErrText>, events: seq<Event>)
    : TaskResult
  {
    if ran.err.Some? then
      var evidence := [CommandExit(ran.exitCode), SinkEventCount(|events|)] + (if ran.deadline then [Timeout] else []);
      FailedResult(task, w, evidence, Sanitized(ran.err.value), TextOf(destroyErr))
    else
      match Accepted(task.id, w.oracle(events), |events|, task.level)
      case Refused(err) => FailedResult(task, w, [SinkEventCount(|events|)], Sanitized(err), TextOf(destroyErr))
      case Verdict(status, level) =>
        TaskResult(task.id, task.version, task.digest, status, level, w.durationMs, [SinkEventCount(|events|)], "",
                   TextOf(destroyErr))
  }

  function ImageRequired(): ErrText {
    Prefixed("a preloaded image is required; ", "refusing implicit registry pulls")
  }

  function NewAdapterFault(image: string, fault: Option<ErrText>): Option<ErrText> {
    if fault.Some? then fault
    else if image == "" then Some(ImageRequired())
    else None
  }

  function Handled(sections: seq<Section>): seq<Step> {
    if sections == [] then [] else Handled(sections[..|sections| - 1]) + [Handle(sections[|sections| - 1])]
  }

  function SpecOf(cfg: Config, task: Task): Spec {
    Spec(ContainerName(TaskRunID(cfg.runID, task.id)), "tasks/" + task.id)
  }

  function AtRegistration(cfg: Config, st: RunState, task: Task, w: TaskWorld): RunState {
    st.(trace := st.trace + Handled(w.before) + [Register(TaskRunID(cfg.runID, task.id))])
  }

  /** Create, exec, destroy, read the sink, ask the oracle. */
  function Executed(cfg: Config, st: RunState, task: Task, w: TaskWorld): RunState {
    var (s1, createErr) := Create(Sys(IDLE, st.engine), SpecOf(cfg, task), w.create);
    if createErr.Some? then
      var (s2, cleanupErr) := Destroy(s1, w.destroy);
      var r := FailedResult(task, w, [], Sanitized(createErr.value), TextOf(cleanupErr));
      RunState(st.results + [r], st.trace, s2.engine)
    else
      var (s2, ran) := Exec(s1, w.exec);
      var (s3, destroyErr) := Destroy(s2, w.destroy);
      var trace := st.trace + Handled(w.during);
      var events := EventsFor(Replay(trace).events, TaskRunID(cfg.runID, task.id));
      RunState(st.results + [Judged(task, w, ran, destroyErr, events)], trace, s3.engine)
  }

  function RunTask(cfg: Config, st: RunState, task: Task, w: TaskWorld): Progress {
    if Gated(cfg, task) then Going(st.(results := st.results + [SkippedResult(task, w, GATE_REASON)]))
    else if cfg.dryRun then Going(st.(results := st.results + [SkippedResult(task, w, "dry-run")]))
    else
      var fault := NewAdapterFault(cfg.image, w.adapterFault);
      if fault.Some? then Aborted(st, NoAdapter(fault.value))
      else if !ValidRunID(TaskRunID(cfg.runID, task.id)) then
        Aborted(AtRegistration(cfg, st, task, w), NotRegistered(task.id))
      else Going(Executed(cfg, AtRegistration(cfg, st, task, w), task, w))
  }

  /** The loop over the first `n` tasks; an abort is final. */
  function RunTasks(cfg: Config, tasks: seq<Task>, worlds: nat -> TaskWorld, e: EngineState, n: nat): Progress
    requires n <= |tasks|
  {
    if n == 0 then Going(RunState([], [], e))
    else
      var p := RunTasks(cfg, tasks, worlds, e, n - 1);
      if p.Aborted? then p else RunTask(cfg, p.st, tasks[n - 1], worlds(n - 1))
  }

  // ----- the whole run -----

  function CanonicalSut(sut: string): string { if sut == "docker" then "docker-runc" else sut }

  function Unavailable(sut: string, hash: Hash): SutDescription {
    SutDescription(CanonicalSut(sut), "unavailable", "unavailable", "0.1.0", HexEncode(hash(Utf8("unavailable"))),
                   "unavailable", "unavailable", "unavailable", "unknown")
  }

  /** `Describe` of the adapter. */
  function Described(product: string, image: string, w: DescribeWorld, hash: Hash): Result<SutDescription, ErrText> {
    if w.version.Err? then Err(w.version.error)
    else if w.info.Err? then Err(Prefixed("docker info: ", w.info.error))
    else
      var kernel := if w.kernel.Some? then TrimSpace(w.kernel.value) else "unknown";
      var configured := if product == "gvisor" then "runsc" else TrimSpace(w.info.value);
      var runtime := if configured == "" then "runc" else configured;
      if w.image.Err? then Err(Prefixed("docker image inspect " + image + ": ", w.image.error))
      else if TrimSpace(w.image.value) == "" then Err(Prefixed("docker image inspect " + image, " returned an empty digest"))
      else
        var digest := TrimSpace(w.image.value);
        var config := image + "\n" + digest + "\n" + "default-allow" + "\n" + runtime;
        Ok(SutDescription(product, TrimSpace(w.version.value), digest, "0.1.0", HexEncode(hash(Utf8(config))), kernel,
                          runtime, w.architecture, "default-allow"))
  }

  /** The SUT description the result carries, and the tasks to run or the reason not to. */
  datatype Prelude = Prelude(sut: SutDescription, tasks: Result<seq<Task>, RunError>)

  ghost function Prepared(options: Options, root: Root, hash: Hash, world: World): Prelude {
    var sut := Unavailable(options.sut, hash);
    var name := CanonicalSut(options.sut);
    var loaded := Loaded(root.catalog, options.suite);
    if loaded.Err? then Prelude(sut, Err(NotLoadable(loaded.error)))
    else if !ValidCatalog(root, loaded.value, hash) then Prelude(sut, Err(InvalidCatalog))
    else if name != "docker-runc" && name != "gvisor" then Prelude(sut, Err(UnknownSut(options.sut)))
    else if options.dryRun then
      Prelude(sut.(configSha256 := HexEncode(hash(Utf8("dry-run:" + options.sut + ":" + options.suite)))),
              Ok(loaded.value))
    else if !world.linux then Prelude(sut, Err(NotLinux))
    else
      var fault := NewAdapterFault(options.image, world.adapterFault);
      if fault.Some? then Prelude(sut, Err(NoAdapter(fault.value)))
      else
        match Described(name, options.image, world.describe, hash)
        case Err(err) => Prelude(sut, Err(NotDescribed(err)))
        case Ok(description) =>
          Prelude(description, if world.sinkFault.Some? then Err(NoSink(world.sinkFault.value)) else Ok(loaded.value))
  }

  function ConfigOf(options: Options, world: World): Config {
    Config(NewRunID(world.seed), options.image, options.allowDangerous, options.dryRun, world.outerVM)
  }

  datatype Outcome = Outcome(result: RunResult, err: Option<RunError>, st: RunState)

  /** The result after the deferred finalizer. */
  function Finalized(options: Options, world: World, sut: SutDescription, results: seq<TaskResult>,
                     err: Option<RunError>): RunResult
  {
    RunResult(SCHEMA, NewRunID(world.seed), options.suite,
              if err.Some? then Sanitized(world.wording(err.value)) else "",
              world.started, world.ended, sut, results, ScoreOf(results))
  }

  ghost function RunOutcome(options: Options, root: Root, hash: Hash, world: World, e: EngineState): Outcome {
    RunFrom(Prepared(options, root, hash, world), options, world, e)
  }

  function RunFrom(p: Prelude, options: Options, world: World, e: EngineState): Outcome {
    match p.tasks
    case Err(error) => Outcome(Finalized(options, world, p.sut, [], Some(error)), Some(error), RunState([], [], e))
    case Ok(tasks) =>
      var done := RunTasks(ConfigOf(options, world), tasks, world.tasks, e, |tasks|);
      var err := if done.Aborted? then Some(done.error) else None;
      Outcome(Finalized(options, world, p.sut, done.st.results, err), err, done.st)
  }

  // ----- the imperative run -----

  method Serve(server: Server, sections: seq<Section>, ghost trace: seq<Step>)
    requires server.Abstract() == Replay(trace)
    modifies server
    ensures server.Abstract() == Replay(trace + Handled(sections))
  {
    assert trace + Handled([]) == trace;
    for k := 0 to |sections|
      invariant server.Abstract() == Replay(trace + Handled(sections[..k]))
    {
      server.Perform(sections[k]);
      HandledMore(trace, sections, k);
    }
    assert sections[..|sections|] == sections;
  }

  lemma HandledMore(trace: seq<Step>, sections: seq<Section>, k: nat)
    requires k < |sections|
    ensures Replay(trace + Handled(sections[..k + 1]))
         == Next(Replay(trace + Handled(sections[..k])), Handle(sections[k]))
  {
    var longer := trace + Handled(sections[..k + 1]);
    assert sections[..k + 1][..k] == sections[..k];
    assert longer == trace + Handled(sections[..k]) + [Handle(sections[k])];
    assert longer[..|longer| - 1] == trace + Handled(sections[..k]);
  }

  /** Everything between the registration of a task and its result. */
  method Execute(cfg: Config, server: Server, engine: Engine, task: Task, w: TaskWorld, ghost st: RunState)
    returns (r: TaskResult, ghost st': RunState)
    requires server.Abstract() == Replay(st.trace) && engine.Abstract() == st.engine
    modifies server, engine
    ensures st' == Executed(cfg, st, task, w) && st'.results == st.results + [r]
    ensures server.Abstract() == Replay(st'.trace) && engine.Abstract() == st'.engine
  {
    st' := Executed(cfg, st, task, w);
    var runID := TaskRunID(cfg.runID, task.id);
    var adapter := new DockerAdapter(engine);
    var createErr := adapter.CreateContainer(Spec(ContainerName(runID), "tasks/" + task.id), w.create);
    if createErr.Some? {
      var errText := SanitizeError(createErr.value);
      var cleanupErr := adapter.DestroyContainer(w.destroy);
      var cleanupText := "";
      if cleanupErr.Some? {
        cleanupText := SanitizeError(cleanupErr.value);
      }
      r := FailedResult(task, w, [], errText, cleanupText);
      return;
    }
    var ran := adapter.ExecCommand(w.exec);
    var destroyErr := adapter.DestroyContainer(w.destroy);
    Serve(server, w.during, st.trace);
    var events := server.Events(runID);
    var cleanupText := "";
    if destroyErr.Some? {
      cleanupText := SanitizeError(destroyErr.value);
    }
    if ran.err.Some? {
      var errText := SanitizeError(ran.err.value);
      var evidence := [CommandExit(ran.exitCode), SinkEventCount(|events|)];
      if ran.deadline {
        evidence := evidence + [Timeout];
      }
      ghost var plain := [CommandExit(ran.exitCode), SinkEventCount(|events|)];
      assert plain + [] == plain;
      r := FailedResult(task, w, evidence, errText, cleanupText);
      return;
    }
    r := TaskResult(task.id, task.version, task.digest, Hold, L0, w.durationMs, [SinkEventCount(|events|)], "", cleanupText);
    match Accepted(task.id, w.oracle(events), |events|, task.level)
    case Refused(err) =>
      var errText := SanitizeError(err);
      r := r.(status := Failed, error := errText);
    case Verdict(status, level) =>
      r := r.(maxLevel := level, status := status);
  }

  /** One turn of the loop: a result, or the error that ends the run. */
  method Turn(cfg: Config, server: Server, engine: Engine, task: Task, w: TaskWorld, ghost st: RunState)
    returns (r: Result<TaskResult, RunError>, ghost p: Progress)
    requires server.Abstract() == Replay(st.trace) && engine.Abstract() == st.engine
    modifies server, engine
    ensures p == RunTask(cfg, st, task, w)
    ensures p.Going? ==> r.Ok? && p.st.results == st.results + [r.value] && server.Abstract() == Replay(p.st.trace)
    ensures p.Aborted? ==> r == Err(p.error) && p.st.results == st.results
    ensures engine.Abstract() == p.st.engine
  {
    p := RunTask(cfg, st, task, w);
    if task.dangerous && (!cfg.outerVM || !cfg.allowDangerous) {
      return Ok(SkippedResult(task, w, GATE_REASON)), p;
    }
    if cfg.dryRun {
      return Ok(SkippedResult(task, w, "dry-run")), p;
    }
    var fault := NewAdapterFault(cfg.image, w.adapterFault);
    if fault.Some? {
      return Err(NoAdapter(fault.value)), p;
    }
    var runID := TaskRunID(cfg.runID, task.id);
    Serve(server, w.before, st.trace);
    var registered := server.RegisterRun(runID);
    ghost var st1 := AtRegistration(cfg, st, task, w);
    assert st1.trace[..|st1.trace| - 1] == st.trace + Handled(w.before);
    if !registered {
      return Err(NotRegistered(task.id)), p;
    }
    ghost var st2: RunState;
    var result;
    result, st2 := Execute(cfg, server, engine, task, w, st1);
    return Ok(result), p;
  }

  /** The loop over the tasks. */
  method Loop(cfg: Config, tasks: seq<Task>, worlds: nat -> TaskWorld, server: Server, engine: Engine)
    returns (results: seq<TaskResult>, err: Option<RunError>, ghost done: Progress)
    requires server.Abstract() == EMPTY
    modifies server, engine
    ensures done == RunTasks(cfg, tasks, worlds, old(engine.Abstract()), |tasks|)
    ensures results == done.st.results && engine.Abstract() == done.st.engine
    ensures err == if done.Aborted? then Some(done.error) else None
  {
    results, err := [], None;
    ghost var e := engine.Abstract();
    done := Going(RunState([], [], e));
    for k := 0 to |tasks|
      invariant done == RunTasks(cfg, tasks, worlds, e, k) && done.Going?
      invariant done.st.results == results
      invariant server.Abstract() == Replay(done.st.trace) && engine.Abstract() == done.st.engine
    {
      var r;
      r, done := Turn(cfg, server, engine, tasks[k], worlds(k), done.st);
      if r.Err? {
        err := Some(r.error);
        AbortIsFinal(cfg, tasks, worlds, e, k + 1);
        return;
      }
      results := results + [r.value];
    }
  }

  lemma {:induction false} AbortIsFinal(cfg: Config, tasks: seq<Task>, worlds: nat -> TaskWorld, e: EngineState, n: nat)
    requires n <= |tasks| && RunTasks(cfg, tasks, worlds, e, n).Aborted?
    ensures RunTasks(cfg, tasks, worlds, e, |tasks|) == RunTasks(cfg, tasks, worlds, e, n)
    decreases |tasks| - n
  {
    hide RunTask;
    if n < |tasks| {
      AbortIsFinal(cfg, tasks, worlds, e, n + 1);
    }
  }

  /** `Run`. The sink lives as long as the run; the finalizer runs on every way out. */
  method Run(options: Options, root: Root, hash: Hash, world: World, engine: Engine)
    returns (result: RunResult, err: Option<RunError>)
    modifies engine
    ensures var out := RunOutcome(options, root, hash, world, old(engine.Abstract()));
      result == out.result && err == out.err && engine.Abstract() == out.st.engine
  {
    hide Described, Unavailable, RunTasks, ScoreOf, Loaded, ValidCatalog, NewRunID, ConfigOf;
    var name := CanonicalSut(options.sut);
    result := RunResult(SCHEMA, NewRunID(world.seed), options.suite, "", world.started, 0,
                        Unavailable(options.sut, hash), [], ScoreOf([]));
    var tasks;
    tasks, err := LoadAndValidate(options, root, hash);
    if err.None? && name != "docker-runc" && name != "gvisor" {
      err := Some(UnknownSut(options.sut));
    }
    if err.None? && options.dryRun {
      var digest := HexEncode(hash(Utf8("dry-run:" + options.sut + ":" + options.suite)));
      result := result.(sut := result.sut.(configSha256 := digest));
    } else if err.None? {
      var sut;
      sut, err := Attach(options, name, world, hash);
      if sut.Some? {
        result := result.(sut := sut.value);
      }
    }
    if err.None? {
      var server := new Server();
      var results;
      ghost var done;
      results, err, done := Loop(ConfigOf(options, world), tasks, world.tasks, server, engine);
      result := result.(tasks := results);
    }
    result := Finalize(result, world, err);
  }

  method LoadAndValidate(options: Options, root: Root, hash: Hash) returns (tasks: seq<Task>, err: Option<RunError>)
    ensures var loaded := Loaded(root.catalog, options.suite);
      if loaded.Err? then err == Some(NotLoadable(loaded.error))
      else tasks == loaded.value && err == if ValidCatalog(root, loaded.value, hash) then None else Some(InvalidCatalog)
  {
    var loaded := Load(root.catalog, options.suite);
    if loaded.Err? {
      return [], Some(NotLoadable(loaded.error));
    }
    var fault := Validate(root, loaded.value, hash);
    return loaded.value, if fault.Some? then Some(InvalidCatalog) else None;
  }

  /** Host check, first adapter, description and sink start of a real run. */
  method Attach(options: Options, name: string, world: World, hash: Hash)
    returns (sut: Option<SutDescription>, err: Option<RunError>)
    ensures
      if !world.linux then sut == None && err == Some(NotLinux)
      else if NewAdapterFault(options.image, world.adapterFault).Some? then
        sut == None && err == Some(NoAdapter(NewAdapterFault(options.image, world.adapterFault).value))
      else if Described(name, options.image, world.describe, hash).Err? then
        sut == None && err == Some(NotDescribed(Described(name, options.image, world.describe, hash).error))
      else
        sut == Some(Described(name, options.image, world.describe, hash).value) &&
        err == if world.sinkFault.Some? then Some(NoSink(world.sinkFault.value)) else None
  {
    if !world.linux {
      return None, Some(NotLinux);
    }
    var fault := NewAdapterFault(options.image, world.adapterFault);
    if fault.Some? {
      return None, Some(NoAdapter(fault.value));
    }
    var described := Described(name, options.image, world.describe, hash);
    if described.Err? {
      return None, Some(NotDescribed(described.error));
    }
    return Some(described.value), if world.sinkFault.Some? then Some(NoSink(world.sinkFault.value)) else None;
  }

  /** The deferred function: end time and summary, and the redacted error of a run that failed. */
  method Finalize(partial: RunResult, world: World, err: Option<RunError>) returns (result: RunResult)
    ensures result == partial.(ended := world.ended, summary := ScoreOf(partial.tasks),
                               error := if err.Some? then Sanitized(world.wording(err.value)) else partial.error)
  {
    result := partial.(ended := world.ended);
    var summary := Score(partial.tasks);
    result := result.(summary := summary);
    if err.Some? {
      var text := SanitizeError(world.wording(err.value));
      result := result.(error := text);
    }
  }
}
