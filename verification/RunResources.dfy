/** What a run does to the engine: leftovers, older resources, and the gate before dangerous tasks. */
module RunResources {
  import opened Base
  import opened Lists
  import opened Text
  import opened Model
  import opened CatalogCheck
  import opened Adapter
  import opened Runner
  import opened RunFacts

  function NameOf(cfg: Config, t: Task): string { SpecOf(cfg, t).name }

  function VolumeFor(cfg: Config, t: Task): string { VolumeOf(NameOf(cfg, t)) }

  // ----- one task -----

  /** What the execution of one task can do to the engine, given its result. */
  ghost predicate TaskEffect(cfg: Config, t: Task, e: EngineState, f: EngineState, r: TaskResult) {
    e.containers <= f.containers <= e.containers + {NameOf(cfg, t)} &&
    e.volumes - {VolumeFor(cfg, t)} <= f.volumes <= e.volumes + {VolumeFor(cfg, t)} &&
    (!Has(r, WentWrong) ==> f.containers == e.containers && f.volumes == e.volumes - {VolumeFor(cfg, t)})
  }

  ghost predicate LogEffect(cfg: Config, t: Task, e: EngineState, f: EngineState) {
    |e.log| <= |f.log| && f.log[..|e.log|] == e.log &&
    forall i :: |e.log| <= i < |f.log| && f.log[i].CreateCmd? ==>
      f.log[i] == CreateCmd(SpecOf(cfg, t).name, SpecOf(cfg, t).taskDir)
  }

  lemma CreateDestroyEffect(e: EngineState, spec: Spec, c: CreateWorld, x: ExecWorld, d: DestroyWorld)
    ensures var (s1, createErr) := Create(Sys(IDLE, e), spec, c);
      var s2 := if createErr.Some? then s1 else Exec(s1, x).0;
      var (s3, destroyErr) := Destroy(s2, d);
      var f := s3.engine;
      e.containers <= f.containers <= e.containers + {spec.name} &&
      e.volumes - {VolumeOf(spec.name)} <= f.volumes <= e.volumes + {VolumeOf(spec.name)} &&
      (createErr.None? && destroyErr.None? && spec.name != "" ==>
        f.containers == e.containers && f.volumes == e.volumes - {VolumeOf(spec.name)})
  {
  }

  lemma CreateDestroyLog(e: EngineState, spec: Spec, c: CreateWorld, x: ExecWorld, d: DestroyWorld)
    ensures var (s1, createErr) := Create(Sys(IDLE, e), spec, c);
      var s2 := if createErr.Some? then s1 else Exec(s1, x).0;
      var f := Destroy(s2, d).0.engine;
      |e.log| <= |f.log| && f.log[..|e.log|] == e.log &&
      forall i :: |e.log| <= i < |f.log| && f.log[i].CreateCmd? ==> f.log[i] == CreateCmd(spec.name, spec.taskDir)
  {
  }

  lemma NameNotEmpty(cfg: Config, t: Task)
    ensures NameOf(cfg, t) != ""
  {
  }

  lemma ExecutedEffect(cfg: Config, st: RunState, t: Task, w: TaskWorld)
    requires !Gated(cfg, t) && !cfg.dryRun
    ensures TaskEffect(cfg, t, st.engine, Executed(cfg, st, t, w).engine, ResultOfExecuted(cfg, st, t, w))
    ensures LogEffect(cfg, t, st.engine, Executed(cfg, st, t, w).engine)
    ensures ResultOfExecuted(cfg, st, t, w).status != Skipped
  {
    hide Create, Exec, Destroy, Judged, Reports;
    var spec := SpecOf(cfg, t);
    NameNotEmpty(cfg, t);
    CreateDestroyEffect(st.engine, spec, w.create, w.exec, w.destroy);
    CreateDestroyLog(st.engine, spec, w.create, w.exec, w.destroy);
    var (s1, createErr) := Create(Sys(IDLE, st.engine), spec, w.create);
    if createErr.None? {
      var (s2, ran) := Exec(s1, w.exec);
      var (s3, destroyErr) := Destroy(s2, w.destroy);
      var runID := Identifiers.TaskRunID(cfg.runID, t.id);
      var events := Sink.EventsFor(Sink.Replay(st.trace + Handled(w.during)).events, runID);
      JudgedReports(cfg, t, w, ran, destroyErr, events);
      JudgedStatus(t, w, ran, destroyErr, events);
    }
  }

  lemma JudgedStatus(t: Task, w: TaskWorld, ran: ExecWorld, cleanup: Option<ErrText>, events: seq<Sink.Event>)
    ensures Judged(t, w, ran, cleanup, events).status != Skipped
  {
  }

  // ----- the whole run -----

  /** A result that shows that something went wrong, for a task with some property. */
  ghost predicate BlamedContainer(cfg: Config, tasks: seq<Task>, results: seq<TaskResult>, name: string) {
    exists i :: 0 <= i < |results| && i < |tasks| && NameOf(cfg, tasks[i]) == name && Has(results[i], WentWrong)
  }

  ghost predicate BlamedVolume(cfg: Config, tasks: seq<Task>, results: seq<TaskResult>, volume: string) {
    exists i :: 0 <= i < |results| && i < |tasks| && VolumeFor(cfg, tasks[i]) == volume && Has(results[i], WentWrong)
  }

  /** The volume names of the tasks that were executed. */
  function UsedVolumes(cfg: Config, tasks: seq<Task>, results: seq<TaskResult>): set<string>
    requires |results| <= |tasks|
  {
    if results == [] then {}
    else
      var n := |results| - 1;
      UsedVolumes(cfg, tasks, results[..n])
      + if results[n].status == Skipped then {} else {VolumeFor(cfg, tasks[n])}
  }

  /** From `e` to `f`: no container that was there is gone, what is new is to be blamed on a reported error, and of
      the volumes that were there only those with the name of an executed task can be gone. */
  ghost predicate Attributed(cfg: Config, tasks: seq<Task>, results: seq<TaskResult>, e: EngineState, f: EngineState)
    requires |results| <= |tasks|
  {
    e.containers <= f.containers &&
    (forall x :: x in f.containers - e.containers ==> BlamedContainer(cfg, tasks, results, x)) &&
    (forall v :: v in f.volumes - e.volumes ==> BlamedVolume(cfg, tasks, results, v)) &&
    e.volumes - UsedVolumes(cfg, tasks, results) <= f.volumes &&
    ((forall r :: r in results ==> !Has(r, WentWrong)) ==>
      f.containers == e.containers && f.volumes == e.volumes - UsedVolumes(cfg, tasks, results))
  }

  lemma BlameGrows(cfg: Config, tasks: seq<Task>, results: seq<TaskResult>, r: TaskResult)
    requires |results| < |tasks|
    ensures forall x :: BlamedContainer(cfg, tasks, results, x) ==> BlamedContainer(cfg, tasks, results + [r], x)
    ensures forall v :: BlamedVolume(cfg, tasks, results, v) ==> BlamedVolume(cfg, tasks, results + [r], v)
    ensures Has(r, WentWrong) ==> BlamedContainer(cfg, tasks, results + [r], NameOf(cfg, tasks[|results|]))
    ensures Has(r, WentWrong) ==> BlamedVolume(cfg, tasks, results + [r], VolumeFor(cfg, tasks[|results|]))
  {
    hide NameOf, VolumeFor, Has;
    var longer := results + [r];
    assert longer[|results|] == r;
    forall x | BlamedContainer(cfg, tasks, results, x)
      ensures BlamedContainer(cfg, tasks, longer, x)
    {
      var i :| 0 <= i < |results| && i < |tasks| && NameOf(cfg, tasks[i]) == x && Has(results[i], WentWrong);
      assert longer[i] == results[i];
    }
    forall v | BlamedVolume(cfg, tasks, results, v)
      ensures BlamedVolume(cfg, tasks, longer, v)
    {
      var i :| 0 <= i < |results| && i < |tasks| && VolumeFor(cfg, tasks[i]) == v && Has(results[i], WentWrong);
      assert longer[i] == results[i];
    }
  }

  lemma UsedVolumesStep(cfg: Config, tasks: seq<Task>, results: seq<TaskResult>, r: TaskResult)
    requires |results| < |tasks|
    ensures UsedVolumes(cfg, tasks, results + [r]) == UsedVolumes(cfg, tasks, results)
      + if r.status == Skipped then {} else {VolumeFor(cfg, tasks[|results|])}
  {
    assert (results + [r])[..|results|] == results;
  }

  lemma SkippedAttributed(cfg: Config, tasks: seq<Task>, results: seq<TaskResult>, r: TaskResult, e: EngineState,
                          f: EngineState)
    requires |results| < |tasks| && Attributed(cfg, tasks, results, e, f) && r.status == Skipped
    ensures Attributed(cfg, tasks, results + [r], e, f)
  {
    hide BlamedContainer, BlamedVolume, UsedVolumes, Has;
    BlameGrows(cfg, tasks, results, r);
    UsedVolumesStep(cfg, tasks, results, r);
    assert forall q :: q in results ==> q in results + [r];
  }

  lemma ExecutedAttributed(cfg: Config, tasks: seq<Task>, results: seq<TaskResult>, r: TaskResult, e: EngineState,
                           f: EngineState, g: EngineState)
    requires |results| < |tasks| && Attributed(cfg, tasks, results, e, f) && r.status != Skipped
    requires TaskEffect(cfg, tasks[|results|], f, g, r)
    ensures Attributed(cfg, tasks, results + [r], e, g)
  {
    hide BlamedContainer, BlamedVolume, UsedVolumes, Has, NameOf, VolumeFor;
    BlameGrows(cfg, tasks, results, r);
    UsedVolumesStep(cfg, tasks, results, r);
    assert r in results + [r] && forall q :: q in results ==> q in results + [r];
  }

  /** Every container command that creates something creates the container of an ungated task. */
  ghost predicate CreatesUngated(cfg: Config, tasks: seq<Task>, e: EngineState, f: EngineState) {
    |e.log| <= |f.log| && f.log[..|e.log|] == e.log &&
    forall i :: |e.log| <= i < |f.log| && f.log[i].CreateCmd? ==> CreatedFor(cfg, tasks, f.log[i])
  }

  ghost predicate CreatedFor(cfg: Config, tasks: seq<Task>, command: Command) {
    exists t :: t in tasks && !Gated(cfg, t) && command == CreateCmd(SpecOf(cfg, t).name, SpecOf(cfg, t).taskDir)
  }

  lemma LogEffectCreates(cfg: Config, tasks: seq<Task>, t: Task, e: EngineState, f: EngineState, g: EngineState)
    requires CreatesUngated(cfg, tasks, e, f) && LogEffect(cfg, t, f, g) && t in tasks && !Gated(cfg, t)
    ensures CreatesUngated(cfg, tasks, e, g)
  {
    hide SpecOf, Gated;
    forall i | |e.log| <= i < |g.log| && g.log[i].CreateCmd?
      ensures CreatedFor(cfg, tasks, g.log[i])
    {
      if i < |f.log| {
        assert g.log[i] == g.log[..|f.log|][i] == f.log[i];
      }
    }
    assert g.log[..|e.log|] == g.log[..|f.log|][..|e.log|];
  }

  lemma NothingAttributed(cfg: Config, tasks: seq<Task>, e: EngineState)
    ensures Attributed(cfg, tasks, [], e, e) && CreatesUngated(cfg, tasks, e, e)
  {
  }

  /** What holds after every number of turns. */
  ghost predicate AttributedAll(cfg: Config, tasks: seq<Task>, e: EngineState, st: RunState) {
    |st.results| <= |tasks| && Attributed(cfg, tasks, st.results, e, st.engine) &&
    CreatesUngated(cfg, tasks, e, st.engine) && (cfg.dryRun ==> st.engine == e)
  }

  lemma TurnAttributed(cfg: Config, tasks: seq<Task>, e: EngineState, st: RunState, w: TaskWorld)
    requires |st.results| < |tasks| && AttributedAll(cfg, tasks, e, st)
    ensures AttributedAll(cfg, tasks, e, RunTask(cfg, st, tasks[|st.results|], w).st)
  {
    hide Attributed, CreatesUngated, Executed, TaskEffect, LogEffect, Gated, Reports;
    var t := tasks[|st.results|];
    if Gated(cfg, t) {
      SkippedAttributed(cfg, tasks, st.results, SkippedResult(t, w, GATE_REASON), e, st.engine);
    } else if cfg.dryRun {
      SkippedAttributed(cfg, tasks, st.results, SkippedResult(t, w, "dry-run"), e, st.engine);
    } else if RunTask(cfg, st, t, w).Going? {
      ExecutedTurnAttributed(cfg, tasks, e, st, t, w);
    }
  }

  lemma ExecutedTurnAttributed(cfg: Config, tasks: seq<Task>, e: EngineState, st: RunState, t: Task, w: TaskWorld)
    requires |st.results| < |tasks| && t == tasks[|st.results|] && AttributedAll(cfg, tasks, e, st)
    requires !Gated(cfg, t) && !cfg.dryRun
    ensures AttributedAll(cfg, tasks, e, Executed(cfg, AtRegistration(cfg, st, t, w), t, w))
  {
    hide Attributed, CreatesUngated, Executed, TaskEffect, LogEffect, Gated, Reports;
    var st' := AtRegistration(cfg, st, t, w);
    ExecutedReports(cfg, st', t, w);
    ExecutedEffect(cfg, st', t, w);
    var r, g := ResultOfExecuted(cfg, st', t, w), Executed(cfg, st', t, w).engine;
    ExecutedAttributed(cfg, tasks, st.results, r, e, st.engine, g);
    LogEffectCreates(cfg, tasks, t, e, st.engine, g);
  }

  lemma {:induction false} RunTasksAttributed(cfg: Config, tasks: seq<Task>, worlds: nat -> TaskWorld, e: EngineState,
                                              n: nat)
    requires n <= |tasks|
    ensures AttributedAll(cfg, tasks, e, RunTasks(cfg, tasks, worlds, e, n).st)
  {
    hide Attributed, CreatesUngated, RunTask, ReportsOn;
    if n == 0 {
      NothingAttributed(cfg, tasks, e);
    } else {
      RunTasksAttributed(cfg, tasks, worlds, e, n - 1);
      ResultsReportPrefix(cfg, tasks, worlds, e, n - 1);
      var p := RunTasks(cfg, tasks, worlds, e, n - 1);
      if p.Going? {
        TurnAttributed(cfg, tasks, e, p.st, worlds(n - 1));
      }
    }
  }

  // ----- theorems about a run -----

  lemma OutcomeAttributed(p: Prelude, options: Options, world: World, e: EngineState)
    ensures var st := RunFrom(p, options, world, e).st;
      |st.results| <= |TasksOf(p)| && Attributed(ConfigOf(options, world), TasksOf(p), st.results, e, st.engine) &&
      CreatesUngated(ConfigOf(options, world), TasksOf(p), e, st.engine) && (options.dryRun ==> st.engine == e)
  {
    hide Attributed, CreatesUngated, RunTasks, Finalized;
    var cfg := ConfigOf(options, world);
    if p.tasks.Ok? {
      RunTasksAttributed(cfg, p.tasks.value, world.tasks, e, |p.tasks.value|);
    } else {
      NothingAttributed(cfg, [], e);
    }
  }

  /** A run whose summary counts no error, aborted or not, leaves the containers as they were, and the volumes too but
      for older ones that bear the name of an executed task: those are gone. */
  lemma CleanRunConserves(options: Options, root: Root, hash: Hash, world: World, e: EngineState)
    ensures var out := RunOutcome(options, root, hash, world, e);
      var tasks := TasksOfRun(options, root, hash, world);
      out.result.summary.errors == 0 ==>
        |out.st.results| <= |tasks| && out.st.engine.containers == e.containers &&
        out.st.engine.volumes == e.volumes - UsedVolumes(ConfigOf(options, world), tasks, out.st.results) &&
        (out.st.engine.volumes == e.volumes <==>
          UsedVolumes(ConfigOf(options, world), tasks, out.st.results) * e.volumes == {})
  {
    hide Prepared, RunFrom, UsedVolumes, BlamedContainer, BlamedVolume;
    var p := Prepared(options, root, hash, world);
    OutcomeAttributed(Prepared(options, root, hash, world), options, world, e);
    OutcomeReports(p, options, world, e);
    CountZeroIff(RunFrom(p, options, world, e).st.results, WentWrong);
    var results := RunFrom(p, options, world, e).st.results;
    if |results| <= |TasksOf(p)| {
      NothingTakenOutIff(e.volumes, UsedVolumes(ConfigOf(options, world), TasksOf(p), results));
    }
  }

  lemma NothingTakenOutIff(s: set<string>, out: set<string>)
    ensures s - out == s <==> out * s == {}
  {
    if out * s == {} {
      assert forall x :: x in s ==> x !in out * s;
      assert s - out == s;
    } else {
      var x :| x in out * s;
      assert x in s && x !in s - out;
    }
  }

  /** In every run, whatever is left in the engine that was not there before belongs to a task whose result reports an
      error, and no container that was there before is removed. */
  lemma LeftoversAreReported(options: Options, root: Root, hash: Hash, world: World, e: EngineState)
    ensures var out := RunOutcome(options, root, hash, world, e);
      var tasks := TasksOfRun(options, root, hash, world);
      var cfg := ConfigOf(options, world);
      e.containers <= out.st.engine.containers &&
      (forall x :: x in out.st.engine.containers - e.containers ==> BlamedContainer(cfg, tasks, out.result.tasks, x)) &&
      (forall v :: v in out.st.engine.volumes - e.volumes ==> BlamedVolume(cfg, tasks, out.result.tasks, v))
  {
    hide Prepared, RunFrom, UsedVolumes, BlamedContainer, BlamedVolume;
    OutcomeAttributed(Prepared(options, root, hash, world), options, world, e);
    OutcomeReports(Prepared(options, root, hash, world), options, world, e);
  }

  /** Without the outer VM or without authorization, no `docker create` is issued for a task at L4 or L5 or of
      family G. Task directories identify the tasks. */
  lemma HighImpactTasksAreNotCreated(options: Options, root: Root, hash: Hash, world: World, e: EngineState,
                                     t: Task, i: nat)
    requires !world.outerVM || !options.allowDangerous
    requires t in TasksOfRun(options, root, hash, world) && NeedsMark(t)
    requires var f := RunOutcome(options, root, hash, world, e).st.engine; |e.log| <= i < |f.log| && f.log[i].CreateCmd?
    ensures RunOutcome(options, root, hash, world, e).st.engine.log[i].taskDir != "tasks/" + t.id
  {
    hide Prepared, RunFrom, Attributed, FitTask;
    OutcomeAttributed(Prepared(options, root, hash, world), options, world, e);
    PreparedIsSound(options, root, hash, world);
    var tasks := TasksOfRun(options, root, hash, world);
    var cfg := ConfigOf(options, world);
    var command := RunOutcome(options, root, hash, world, e).st.engine.log[i];
    assert CreatedFor(cfg, tasks, command);
    var u :| u in tasks && !Gated(cfg, u) && command == CreateCmd(SpecOf(cfg, u).name, SpecOf(cfg, u).taskDir);
    MarkedTasksAreGated(cfg, root, tasks, t, hash);
    if t.id == u.id {
      SameIDSameTask(tasks, t, u);
    }
    assert ("tasks/" + t.id)[6..] == t.id && ("tasks/" + u.id)[6..] == u.id;
  }

  lemma MarkedTasksAreGated(cfg: Config, root: Root, tasks: seq<Task>, t: Task, hash: Hash)
    requires ValidCatalog(root, tasks, hash) && t in tasks && NeedsMark(t) && (!cfg.outerVM || !cfg.allowDangerous)
    ensures Gated(cfg, t)
  {
    var i :| 0 <= i < |tasks| && tasks[i] == t;
    assert FitTask(root, tasks[i], hash);
  }

  lemma SameIDSameTask(tasks: seq<Task>, t: Task, u: Task)
    requires DistinctIDs(tasks) && t in tasks && u in tasks && t.id == u.id
    ensures t == u
  {
    var i :| 0 <= i < |tasks| && tasks[i] == t;
    var j :| 0 <= j < |tasks| && tasks[j] == u;
    assert TaskIDs(tasks)[i] == TaskIDs(tasks)[j];
  }

  /** A dry run issues no command at all and skips every task. */
  lemma DryRunOnlySkips(options: Options, root: Root, hash: Hash, world: World, e: EngineState)
    requires options.dryRun
    ensures var out := RunOutcome(options, root, hash, world, e);
      out.st.engine == e && forall r :: r in out.result.tasks ==> r.status == Skipped
  {
    hide Prepared, RunFrom, Attributed, CreatesUngated;
    OutcomeAttributed(Prepared(options, root, hash, world), options, world, e);
    OutcomeReports(Prepared(options, root, hash, world), options, world, e);
  }
}
