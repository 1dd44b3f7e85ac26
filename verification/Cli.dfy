/** The commands `run` and `validate-result` (cmd/holdout/main.go). */
module Cli {
  import opened Base
  import opened Text
  import opened Redaction
  import opened Model
  import opened Validation
  import opened CatalogFile
  import opened CatalogCheck
  import opened Sink
  import opened Adapter
  import opened Archive
  import opened Runner
  import opened RunFacts
  import opened RunResources

  /** What `run` leaves behind: its exit code, and the result file if one was written. */
  datatype Exit = Exit(code: int, file: Option<RunResult>)

  predicate Refuses(options: Options, understand: string) { options.allowDangerous && understand != "1" }

  ghost function RunExit(options: Options, understand: string, root: Root, hash: Hash, world: World, w: WriteWorld,
                         e: EngineState): Exit
  {
    if Refuses(options, understand) then Exit(2, None)
    else
      var out := RunOutcome(options, root, hash, world, e);
      var file := if Succeeds(w) then Some(out.result) else None;
      if out.err.Some? || !Succeeds(w) then Exit(2, file) else Exit(ExitCodeOf(out.result.tasks), file)
  }

  /** `runCommand` behind flag parsing; `understand` is HOLDOUT_I_UNDERSTAND. A partial result is written as well. The
      path holds the new result exactly if writing succeeds, and in every state on the way the old file or the complete
      new one. */
  method RunCommand(options: Options, understand: string, root: Root, hash: Hash, world: World, engine: Engine,
                    disk: Disk, path: string, temp: string, encode: RunResult -> string, w: WriteWorld)
    returns (exit: Exit)
    requires disk.Valid() && temp != path && temp !in disk.files
    modifies engine, disk
    ensures exit == RunExit(options, understand, root, hash, world, w, old(engine.Abstract()))
    ensures engine.Abstract() == if Refuses(options, understand) then old(engine.Abstract())
                                 else RunOutcome(options, root, hash, world, old(engine.Abstract())).st.engine
    ensures disk.Valid()
    ensures exit.file.Some? ==> disk.files == old(disk.files)[path := encode(exit.file.value)]
    ensures exit.file.None? ==> disk.files - {temp} == old(disk.files)
    ensures SafeSince(old(disk.history), old(disk.files), disk.history, path, temp,
                      encode(RunOutcome(options, root, hash, world, old(engine.Abstract())).result))
  {
    hide RunOutcome, SafeSince;
    ghost var data := encode(RunOutcome(options, root, hash, world, engine.Abstract()).result);
    SafeAtStart(disk.history, disk.files, path, temp, data);
    if options.allowDangerous && understand != "1" {
      return Exit(2, None);
    }
    var result, err := Run(options, root, hash, world, engine);
    var ok := Write(disk, path, temp, encode(result), w);
    if err.Some? || !ok {
      return Exit(2, if ok then Some(result) else None);
    }
    var code := ExitCode(result.tasks);
    return Exit(code, Some(result));
  }

  /** What the decoder makes of the file at the path, if there is one. */
  function ReadResult(files: Files, path: string, decode: string -> Option<RunResult>): Option<RunResult> {
    if path in files then decode(files[path]) else None
  }

  /** `validateResultCommand`: 0 for a file that decodes and passes, 2 otherwise. `root` is the checkout, if found. */
  method ValidateResultCommand(disk: Disk, path: string, decode: string -> Option<RunResult>, strict: bool,
                               root: Option<Root>, hash: Hash)
    returns (code: int)
    ensures code == 0 || code == 2
    ensures var file := ReadResult(disk.files, path, decode);
      code == 0 <==>
        file.Some? && Acceptable(file.value) && (strict ==> root.Some? && StrictlyValid(root.value, file.value, hash))
  {
    hide Acceptable, StrictlyValid;
    if path !in disk.files {
      return 2;
    }
    var file := decode(disk.files[path]);
    if file.None? {
      return 2;
    }
    var fault := ValidateRunResult(file.value);
    if fault.Some? {
      return 2;
    }
    if strict {
      if root.None? {
        return 2;
      }
      var strictFault := ValidateResult(root.value, file.value, hash);
      if strictFault.Some? {
        return 2;
      }
    }
    return 0;
  }

  /** The JSON encoder and decoder fit together. */
  ghost predicate Inverse(encode: RunResult -> string, decode: string -> Option<RunResult>) {
    forall r :: decode(encode(r)) == Some(r)
  }

  /** Every file that `run` writes with a named suite and a complete SUT, read back, passes the plain check; it passes the
      strict one exactly when the run did not end with 2; and 0 is the exit code exactly of a complete run with a clean
      summary. */
  lemma WrittenFilesPass(options: Options, understand: string, root: Root, hash: Hash, world: World, w: WriteWorld,
                         e: EngineState, files: Files, path: string, encode: RunResult -> string,
                         decode: string -> Option<RunResult>)
    requires Clocked(world) && options.suite != "" && Nameable(options, root, hash, world)
    requires !Refuses(options, understand) && Succeeds(w) && Inverse(encode, decode)
    ensures var exit := RunExit(options, understand, root, hash, world, w, e);
      exit.file.Some? &&
      var file := ReadResult(files[path := encode(exit.file.value)], path, decode);
      file.Some? && Acceptable(file.value) &&
      (StrictlyValid(root, file.value, hash) <==> exit.code != 2) &&
      (exit.code == 0 <==>
        StrictlyValid(root, file.value, hash) && file.value.summary.score == 0 && file.value.summary.skipped == 0 &&
        file.value.summary.errors == 0)
  {
    hide RunOutcome, Acceptable, StrictlyValid, Nameable, ScoreOf;
    var out := RunOutcome(options, root, hash, world, e);
    ProducerMeetsValidator(options, root, hash, world, e);
    StrictAcceptsIffNoError(options, root, hash, world, e);
    VerdictAgrees(out.result);
    ExitCodeIsNotTwo(out.result.tasks);
  }

  lemma {:induction false} ExitCodeIsNotTwo(tasks: seq<TaskResult>)
    ensures ExitCodeOf(tasks) in {0, 1, 3}
  {
    if tasks != [] {
      ExitCodeIsNotTwo(tasks[1..]);
    }
  }

  /** A real run that ends with 0 leaves no container behind, and the engine exactly as it was if no older volume bears
      the name of an executed task. */
  lemma CleanExitConserves(options: Options, understand: string, root: Root, hash: Hash, world: World, w: WriteWorld,
                           e: EngineState)
    requires Clocked(world) && options.suite != "" && Nameable(options, root, hash, world)
    requires RunExit(options, understand, root, hash, world, w, e).code == 0
    ensures var f := RunOutcome(options, root, hash, world, e).st.engine;
      f.containers == e.containers && f.volumes <= e.volumes
  {
    hide RunOutcome, Acceptable, StrictlyValid, Nameable, ScoreOf, UsedVolumes, TasksOfRun;
    ProducerMeetsValidator(options, root, hash, world, e);
    VerdictAgrees(RunOutcome(options, root, hash, world, e).result);
    CleanRunConserves(options, root, hash, world, e);
  }

  // ----- the documented exit code of a run whose clean-up fails -----

  ghost predicate SomeUnclean(results: seq<TaskResult>) { exists r :: r in results && r.cleanupError != "" }

  /** The documented rule: an incomplete clean-up, like any error of the run, means 2; then 3 comes before 1. */
  ghost function DocumentedRunCode(out: Outcome): int {
    if out.err.Some? || SomeUnclean(out.result.tasks) then 2 else DocumentedExitCode(out.result.tasks)
  }

  lemma IncidentCode(tasks: seq<TaskResult>)
    requires exists r :: r in tasks && Incident(r)
    ensures ExitCodeOf(tasks) == if BreachHidesIncident(tasks) then 1 else 3
  {
    DocumentedPriorityIff(tasks);
    ExitZeroIff(tasks);
    ExitCodeIsNotTwo(tasks);
  }

  /** A run whose clean-up failed somewhere ends with 2 exactly when some task is to be executed and gets no adapter;
      otherwise with 3, or with 1 if a breach comes first. */
  lemma UncleanRunExit(options: Options, understand: string, root: Root, hash: Hash, world: World, w: WriteWorld,
                       e: EngineState)
    requires !Refuses(options, understand) && Succeeds(w)
    requires SomeUnclean(RunOutcome(options, root, hash, world, e).result.tasks)
    ensures var code := RunExit(options, understand, root, hash, world, w, e).code;
      var tasks, cfg := TasksOfRun(options, root, hash, world), ConfigOf(options, world);
      var results := RunOutcome(options, root, hash, world, e).result.tasks;
      (code == 2 <==> exists k :: 0 <= k < |tasks| && Blocked(cfg, tasks, world.tasks, k)) &&
      (code != 2 ==> code == if BreachHidesIncident(results) then 1 else 3)
  {
    hide Prepared, RunTasks, Blocked, BreachHidesIncident;
    var out := RunOutcome(options, root, hash, world, e);
    ResultsFit(options, root, hash, world, e);
    assert Prepared(options, root, hash, world).tasks.Ok?;
    RunStopsIff(options, root, hash, world, e);
    ExitCodeIsNotTwo(out.result.tasks);
    IncidentCode(out.result.tasks);
  }

  /** The exit code is the documented one exactly for a run that reports an error, or in which no clean-up failed and no
      breach hides an incident. */
  lemma DocumentedRunCodeIff(options: Options, understand: string, root: Root, hash: Hash, world: World, w: WriteWorld,
                             e: EngineState)
    requires !Refuses(options, understand) && Succeeds(w)
    ensures var out := RunOutcome(options, root, hash, world, e);
      RunExit(options, understand, root, hash, world, w, e).code == DocumentedRunCode(out) <==>
        out.err.Some? || (!SomeUnclean(out.result.tasks) && !BreachHidesIncident(out.result.tasks))
  {
    hide RunOutcome, BreachHidesIncident, DocumentedExitCode;
    var out := RunOutcome(options, root, hash, world, e);
    ExitCodeIsNotTwo(out.result.tasks);
    DocumentedPriorityIff(out.result.tasks);
  }

  // ----- a run that goes on behind a failed clean-up -----

  const BUSY: ErrText := "device or resource busy"

  /** Everything succeeds but the removal of the container; the oracle reports a hold. */
  function BusyWorld(): TaskWorld {
    var ok := RemoveOutcome(None, true);
    TaskWorld(None, [], CreateWorld(None, CreateOutcome(None, true, true), None, ok, ok), ExecWorld(0, None, false), [],
              DestroyWorld(RemoveOutcome(Some(BUSY), false), ok), (events: seq<Event>) => Answer("hold", "L0"), 0)
  }

  function BusyWorlds(): nat -> TaskWorld { (i: nat) => BusyWorld() }

  lemma AdapterAvailable(options: Options, root: Root, hash: Hash, world: World)
    requires Prepared(options, root, hash, world).tasks.Ok?
    ensures !options.dryRun ==> options.image != ""
  {
    hide Described, Unavailable, Utf8, HexEncode, Loaded, ValidCatalog;
  }

  lemma PreparedIgnoresTasks(options: Options, root: Root, hash: Hash, world: World, worlds: nat -> TaskWorld)
    ensures Prepared(options, root, hash, world.(tasks := worlds)) == Prepared(options, root, hash, world)
  {
    hide Described, Unavailable, Utf8, HexEncode, Loaded, ValidCatalog;
  }

  lemma NothingBlocked(cfg: Config, tasks: seq<Task>)
    requires cfg.image != ""
    ensures forall k :: 0 <= k < |tasks| ==> !Blocked(cfg, tasks, BusyWorlds(), k)
  {
    hide Gated;
  }

  lemma FirstIsUnclean(cfg: Config, tasks: seq<Task>, e: EngineState)
    requires cfg.image != "" && !cfg.dryRun
    requires tasks != [] && !Gated(cfg, tasks[0]) && NameOf(cfg, tasks[0]) !in e.containers
    ensures UncleanAt(cfg, tasks, BusyWorlds(), e, 0)
  {
    hide Gated, SpecOf;
  }

  /** In every checkout and for every SUT that gets a real run to its tasks, provided the first one is let through and its
      container name is free: if only the removals of containers fail, the run goes on through all tasks with a clean-up
      error in the first, and ends with 3, where 2 is documented. */
  lemma RunGoesOnBehindFailedCleanup(options: Options, understand: string, root: Root, hash: Hash, world: World,
                                     w: WriteWorld, e: EngineState)
    requires !Refuses(options, understand) && Succeeds(w) && !options.dryRun
    requires Prepared(options, root, hash, world).tasks.Ok?
    requires var tasks, cfg := TasksOfRun(options, root, hash, world), ConfigOf(options, world);
      |tasks| > 1 && !Gated(cfg, tasks[0]) && NameOf(cfg, tasks[0]) !in e.containers
    ensures var busy := world.(tasks := BusyWorlds());
      var out := RunOutcome(options, root, hash, busy, e);
      out.err == None && |out.result.tasks| == |TasksOfRun(options, root, hash, world)| &&
      out.result.tasks[0].cleanupError != "" && !CleanupStopsRun(out.result.tasks) &&
      RunExit(options, understand, root, hash, busy, w, e).code == 3 && DocumentedRunCode(out) == 2
  {
    hide Prepared, RunTasks, ReportsOn, BusyWorld;
    var busy := world.(tasks := BusyWorlds());
    PreparedIgnoresTasks(options, root, hash, world, BusyWorlds());
    AdapterAvailable(options, root, hash, world);
    var tasks, cfg := TasksOfRun(options, root, hash, world), ConfigOf(options, world);
    var out := RunOutcome(options, root, hash, busy, e);
    NothingBlocked(cfg, tasks);
    RunStopsIff(options, root, hash, busy, e);
    OutcomeReports(Prepared(options, root, hash, busy), options, busy, e);
    FirstIsUnclean(cfg, tasks, e);
    EndsBehindIff(options, root, hash, busy, e, 0);
    assert Incident(out.result.tasks[0]);
    ExitCodeByFirst(out.result.tasks, 0);
    assert out.result.tasks[0] in out.result.tasks;
  }

  // ----- the exit code, case by case -----

  /** `run` ends with 2 exactly when dangerous tasks are allowed without the acknowledgement, the run reports an error, or
      a step of writing its file fails; otherwise the first task that is an incident (3) or a breach (1) decides. A
      file is written exactly when the command is not refused and no step of writing fails. */
  lemma RunExitIff(options: Options, understand: string, root: Root, hash: Hash, world: World, w: WriteWorld,
                   e: EngineState)
    ensures var exit := RunExit(options, understand, root, hash, world, w, e);
      var out := RunOutcome(options, root, hash, world, e);
      var refused := options.allowDangerous && understand != "1";
      var written := !w.createFails && w.writtenBefore.None? && !w.syncFails && !w.closeFails && !w.renameFails;
      (exit.code == 2 <==> refused || out.err.Some? || !written) &&
      (exit.code == 3 <==> !refused && out.err.None? && written && OffenderIs(out.result.tasks, true)) &&
      (exit.code == 1 <==> !refused && out.err.None? && written && OffenderIs(out.result.tasks, false)) &&
      exit.file == if refused || !written then None else Some(out.result)
  {
    hide RunOutcome;
    var tasks := RunOutcome(options, root, hash, world, e).result.tasks;
    ExitCodeIsNotTwo(tasks);
    OffenderIff(tasks);
  }

  ghost predicate IsIncident(t: TaskResult) {
    StatusText(t.status) == "error" || StatusText(t.status) == "skipped" || t.cleanupError != ""
  }

  ghost predicate IsBreach(t: TaskResult) {
    StatusText(t.status) in {"bypass", "exfil", "lateral", "escape"}
  }

  /** Result `i` is the first that is an incident or a breach. */
  ghost predicate Offends(tasks: seq<TaskResult>, i: nat)
    requires i < |tasks|
  {
    (IsIncident(tasks[i]) || IsBreach(tasks[i])) &&
    forall j :: 0 <= j < i ==> !IsIncident(tasks[j]) && !IsBreach(tasks[j])
  }

  /** There is one, and it is an incident or not. */
  ghost predicate OffenderIs(tasks: seq<TaskResult>, incident: bool) {
    exists i :: 0 <= i < |tasks| && Offends(tasks, i) && IsIncident(tasks[i]) == incident
  }

  lemma StatusIff(t: TaskResult)
    ensures IsIncident(t) <==> Incident(t)
    ensures IsBreach(t) <==> Breach(t)
  {
    assert StatusOf(StatusText(t.status)) == t.status;
  }

  lemma OffenderIff(tasks: seq<TaskResult>)
    ensures ExitCodeOf(tasks) == 3 <==> OffenderIs(tasks, true)
    ensures ExitCodeOf(tasks) == 1 <==> OffenderIs(tasks, false)
  {
    hide IsIncident, IsBreach, Incident, Breach;
    forall t: TaskResult
      ensures IsIncident(t) <==> Incident(t)
      ensures IsBreach(t) <==> Breach(t)
    {
      StatusIff(t);
    }
    ExitZeroIff(tasks);
    forall i | 0 <= i < |tasks| && Offends(tasks, i)
      ensures ExitCodeOf(tasks) == if IsIncident(tasks[i]) then 3 else 1
    {
      ExitCodeByFirst(tasks, i);
    }
    if k :| 0 <= k < |tasks| && (Breach(tasks[k]) || Incident(tasks[k])) {
      var i := FirstOffender(tasks, k);
      assert Offends(tasks, i);
    }
  }
}
