/** What holds of every run, however its surroundings behave: its results and the two validators that read them. */
module RunFacts {
  import opened Base
  import opened Lists
  import opened Text
  import opened Redaction
  import opened Identifiers
  import opened Model
  import opened Validation
  import opened CatalogFile
  import opened CatalogCheck
  import opened Sink
  import opened Adapter
  import opened Runner

  // ----- the oracle filter -----

  /** `runOracle` lets exactly two answers through: hold at L0, and with sink evidence the declared level of the task
      together with the status of that level. */
  lemma AcceptedIff(id: string, answer: OracleAnswer, count: nat, expected: Level)
    ensures Accepted(id, answer, count, expected).Verdict? <==>
      answer.Answer? &&
      ((answer.status == "hold" && answer.level == "L0") ||
       (count > 0 && ValidLevel(expected) && expected != L0 && answer.level == LevelText(expected) &&
        answer.status == StatusText(StatusForLevel(expected))))
  {
    if answer.Answer? {
      var status, level := StatusOf(answer.status), LevelOf(answer.level);
      assert answer.status == StatusText(status) && answer.level == LevelText(level);
      assert status == Hold <==> answer.status == "hold";
      assert level == L0 <==> answer.level == "L0";
      assert level == expected <==> answer.level == LevelText(expected);
      assert LevelText(level) == "" ==> level == OtherLevel("");
    }
  }

  lemma AcceptedSound(id: string, answer: OracleAnswer, count: nat, expected: Level)
    requires Accepted(id, answer, count, expected).Verdict?
    ensures var v := Accepted(id, answer, count, expected);
      (v.status == Hold && v.level == L0) ||
      (count > 0 && v.level == expected && v.level != L0 && ValidLevel(v.level) && v.status == StatusForLevel(v.level))
  {
  }

  // ----- one result -----

  /** A result reports on its task and is consistent; above L0 it has the declared level of a task that was let
      through the gate. */
  ghost predicate Reports(cfg: Config, t: Task, r: TaskResult) {
    r.id == t.id && r.version == t.version && r.digest == t.digest && r.durationMs >= 0 &&
    ValidLevel(r.maxLevel) && ValidStatus(r.status) &&
    (r.status == Failed || r.status == Skipped ==> r.maxLevel == L0 && r.error != "") &&
    (r.status != Failed && r.status != Skipped ==> r.status == StatusForLevel(r.maxLevel)) &&
    (r.maxLevel != L0 ==> r.maxLevel == t.level) &&
    (r.status == Skipped <==> cfg.dryRun || Gated(cfg, t)) &&
    SecretFree(r.error) && SecretFree(r.cleanupError)
  }

  lemma ShortIsSecretFree(s: string)
    requires |s| < |SECRET_NAME|
    ensures SecretFree(s)
  {
    assert |SECRET_NAME| < |SECRET_VALUE|;
  }

  lemma WithoutSeparatorsIsSecretFree(s: string)
    requires Plain(s)
    ensures SecretFree(s)
  {
    forall i
      ensures !OccursAt(s, SECRET_VALUE, i) && !OccursAt(s, SECRET_NAME, i)
    {
      if 0 <= i && i + |SECRET_VALUE| <= |s| {
        assert s[i..i + |SECRET_VALUE|][7] == s[i + 7];
        assert SECRET_VALUE[7] == '-';
      }
      if 0 <= i && i + |SECRET_NAME| <= |s| {
        assert s[i..i + |SECRET_NAME|][7] == s[i + 7];
        assert SECRET_NAME[7] == '_';
      }
    }
  }

  ghost predicate Plain(s: string) { '-' !in s && '_' !in s }

  lemma GateWordsPlain()
    ensures Plain("dangerous task requires") && Plain(" a Firecracker outer")
  {
  }

  lemma MoreGateWordsPlain()
    ensures Plain(" VM marker and explicit") && Plain(" authorization")
  {
  }

  lemma PlainConcat(a: string, b: string)
    requires Plain(a) && Plain(b)
    ensures Plain(a + b)
  {
  }

  lemma GateReasonIsSecretFree()
    ensures SecretFree(GATE_REASON) && GATE_REASON != ""
  {
    GateWordsPlain();
    MoreGateWordsPlain();
    assert |GATE_REASON| > 0;
    hide Plain, SecretFree;
    PlainConcat("dangerous task requires", " a Firecracker outer");
    PlainConcat(" VM marker and explicit", " authorization");
    PlainConcat("dangerous task requires" + " a Firecracker outer", " VM marker and explicit" + " authorization");
    WithoutSeparatorsIsSecretFree(GATE_REASON);
  }

  lemma TextOfIsSecretFree(err: Option<ErrText>)
    ensures SecretFree(TextOf(err)) && (TextOf(err) == "" <==> err.None?)
  {
    if err.Some? {
      SanitizedIsSecretFree(err.value);
      SanitizedNonEmpty(err.value);
    } else {
      ShortIsSecretFree("");
    }
  }

  lemma SkippedReports(cfg: Config, t: Task, w: TaskWorld, reason: string)
    requires reason != "" && SecretFree(reason) && (cfg.dryRun || Gated(cfg, t))
    ensures Reports(cfg, t, SkippedResult(t, w, reason))
  {
    ShortIsSecretFree("");
  }

  lemma FailedReports(cfg: Config, t: Task, w: TaskWorld, evidence: seq<Evidence>, err: ErrText,
                      cleanup: Option<ErrText>)
    requires !Gated(cfg, t) && !cfg.dryRun
    ensures Reports(cfg, t, FailedResult(t, w, evidence, Sanitized(err), TextOf(cleanup)))
  {
    SanitizedIsSecretFree(err);
    SanitizedNonEmpty(err);
    TextOfIsSecretFree(cleanup);
  }

  lemma JudgedReports(cfg: Config, t: Task, w: TaskWorld, ran: ExecWorld, cleanup: Option<ErrText>, events: seq<Event>)
    requires !Gated(cfg, t) && !cfg.dryRun
    ensures Reports(cfg, t, Judged(t, w, ran, cleanup, events))
    ensures Judged(t, w, ran, cleanup, events).maxLevel != L0 ==> events != []
    ensures cleanup.Some? ==> Has(Judged(t, w, ran, cleanup, events), WentWrong)
  {
    TextOfIsSecretFree(cleanup);
    ShortIsSecretFree("");
    if ran.err.Some? {
      var evidence := [CommandExit(ran.exitCode), SinkEventCount(|events|)] + (if ran.deadline then [Timeout] else []);
      FailedReports(cfg, t, w, evidence, ran.err.value, cleanup);
    } else {
      var v := Accepted(t.id, w.oracle(events), |events|, t.level);
      if v.Verdict? {
        AcceptedSound(t.id, w.oracle(events), |events|, t.level);
      } else {
        FailedReports(cfg, t, w, [SinkEventCount(|events|)], v.err, cleanup);
      }
    }
  }

  lemma JudgedKeepsVerdict(t: Task, w: TaskWorld, ran: ExecWorld, c: Option<ErrText>, events: seq<Event>)
    ensures Judged(t, w, ran, c, events) == Judged(t, w, ran, None, events).(cleanupError := TextOf(c))
  {
    hide Accepted;
  }

  /** The result `Executed` adds. */
  function ResultOfExecuted(cfg: Config, st: RunState, t: Task, w: TaskWorld): TaskResult {
    var r := Executed(cfg, st, t, w).results;
    assert |r| > 0;
    r[|r| - 1]
  }

  lemma ExecutedReports(cfg: Config, st: RunState, t: Task, w: TaskWorld)
    requires !Gated(cfg, t) && !cfg.dryRun
    ensures Executed(cfg, st, t, w).results == st.results + [ResultOfExecuted(cfg, st, t, w)]
    ensures Reports(cfg, t, ResultOfExecuted(cfg, st, t, w))
  {
    var (s1, createErr) := Create(Sys(IDLE, st.engine), SpecOf(cfg, t), w.create);
    if createErr.Some? {
      var (s2, cleanupErr) := Destroy(s1, w.destroy);
      FailedReports(cfg, t, w, [], createErr.value, cleanupErr);
    } else {
      var (s2, ran) := Exec(s1, w.exec);
      var (s3, destroyErr) := Destroy(s2, w.destroy);
      var events := EventsFor(Replay(st.trace + Handled(w.during)).events, TaskRunID(cfg.runID, t.id));
      JudgedReports(cfg, t, w, ran, destroyErr, events);
    }
  }

  /** The results report on as many tasks of the catalog, in its order. */
  ghost predicate ReportsOn(cfg: Config, tasks: seq<Task>, results: seq<TaskResult>) {
    |results| <= |tasks| && forall i :: 0 <= i < |results| ==> Reports(cfg, tasks[i], results[i])
  }

  lemma RunTaskReports(cfg: Config, st: RunState, t: Task, w: TaskWorld)
    ensures match RunTask(cfg, st, t, w)
      case Aborted(st', _) => st'.results == st.results
      case Going(st') =>
        |st'.results| == |st.results| + 1 && st'.results[..|st.results|] == st.results
        && Reports(cfg, t, st'.results[|st.results|])
  {
    if Gated(cfg, t) {
      GateReasonIsSecretFree();
      SkippedReports(cfg, t, w, GATE_REASON);
    } else if cfg.dryRun {
      ShortIsSecretFree("dry-run");
      SkippedReports(cfg, t, w, "dry-run");
    } else if RunTask(cfg, st, t, w).Going? {
      ExecutedReports(cfg, AtRegistration(cfg, st, t, w), t, w);
    }
  }

  /** The results of a run, also of an aborted one, report on a prefix of the catalog, in its order; a run that is not
      aborted reports on all of it. */
  lemma {:induction false} ResultsReportPrefix(cfg: Config, tasks: seq<Task>, worlds: nat -> TaskWorld, e: EngineState,
                                               n: nat)
    requires n <= |tasks|
    ensures var p := RunTasks(cfg, tasks, worlds, e, n);
      |p.st.results| <= n && (p.Going? <==> |p.st.results| == n) && ReportsOn(cfg, tasks, p.st.results)
  {
    hide RunTask, Reports;
    if n > 0 {
      ResultsReportPrefix(cfg, tasks, worlds, e, n - 1);
      var p := RunTasks(cfg, tasks, worlds, e, n - 1);
      if p.Going? {
        RunTaskReports(cfg, p.st, tasks[n - 1], worlds(n - 1));
        var q := RunTasks(cfg, tasks, worlds, e, n);
        assert forall i :: 0 <= i < |p.st.results| ==> q.st.results[i] == p.st.results[i] by {
          assert q.st.results[..|p.st.results|] == p.st.results;
        }
      }
    }
  }

  // ----- the producer meets the first validator -----

  lemma ReportsIsConsistent(cfg: Config, root: Root, t: Task, r: TaskResult, hash: Hash)
    requires FitTask(root, t, hash) && Reports(cfg, t, r)
    ensures Consistent(r)
  {
  }

  lemma ReportedIDs(tasks: seq<Task>, results: seq<TaskResult>)
    requires |results| <= |tasks| && DistinctIDs(tasks)
    requires forall i :: 0 <= i < |results| ==> results[i].id == tasks[i].id
    ensures NoDuplicates(ResultIDs(results))
    ensures forall i :: 0 <= i < |results| ==> results[i].id !in Elements(ResultIDs(results)[..i])
  {
    var ids := TaskIDs(tasks);
    forall i, j | 0 <= i < j < |results|
      ensures results[i].id != results[j].id
    {
      assert ids[i] != ids[j];
    }
  }

  lemma ResultsAreFine(cfg: Config, root: Root, tasks: seq<Task>, results: seq<TaskResult>, hash: Hash)
    requires ReportsOn(cfg, tasks, results) && ValidCatalog(root, tasks, hash)
    ensures FineUpTo(results, |results|)
  {
    ReportedIDs(tasks, results);
    forall i | 0 <= i < |results|
      ensures Fine(results, i)
    {
      ReportsIsConsistent(cfg, root, tasks[i], results[i], hash);
    }
  }

  /** The run gets as far as describing its SUT. */
  ghost predicate Describes(options: Options, root: Root, hash: Hash, world: World) {
    var loaded := Loaded(root.catalog, options.suite);
    var name := CanonicalSut(options.sut);
    loaded.Ok? && ValidCatalog(root, loaded.value, hash) && (name == "docker-runc" || name == "gvisor") &&
    !options.dryRun && world.linux && NewAdapterFault(options.image, world.adapterFault).None? &&
    Described(name, options.image, world.describe, hash).Ok?
  }

  /** The parts of the SUT description that can come out empty. */
  ghost predicate Nameable(options: Options, root: Root, hash: Hash, world: World) {
    if Describes(options, root, hash, world) then
      TrimSpace(world.describe.version.value) != "" &&
      (world.describe.kernel.Some? ==> TrimSpace(world.describe.kernel.value) != "")
    else options.sut != ""
  }

  lemma HexOfSum(h: Sum256)
    ensures IsSha256Text(HexEncode(h))
  {
    var s := HexEncode(h);
    forall i | 0 <= i < |s|
      ensures IsHex(s[i])
    {
      assert s[i] in s;
    }
  }

  lemma UnavailableCompleteIff(sut: string, hash: Hash)
    ensures CompleteSut(Unavailable(sut, hash)) <==> sut != ""
  {
    HexOfSum(hash(Utf8("unavailable")));
  }

  lemma DescribedCompleteIff(product: string, image: string, w: DescribeWorld, hash: Hash)
    requires product != "" && Described(product, image, w, hash).Ok?
    ensures CompleteSut(Described(product, image, w, hash).value) <==>
      TrimSpace(w.version.value) != "" && (w.kernel.Some? ==> TrimSpace(w.kernel.value) != "")
  {
    var d := Described(product, image, w, hash).value;
    var digest := TrimSpace(w.image.value);
    HexOfSum(hash(Utf8(image + "\n" + digest + "\n" + "default-allow" + "\n" + d.runtime)));
  }

  lemma PreparedSutCompleteIff(options: Options, root: Root, hash: Hash, world: World)
    ensures CompleteSut(Prepared(options, root, hash, world).sut) <==> Nameable(options, root, hash, world)
  {
    UnavailableCompleteIff(options.sut, hash);
    if Describes(options, root, hash, world) {
      DescribedCompleteIff(CanonicalSut(options.sut), options.image, world.describe, hash);
    }
    HexOfSum(hash(Utf8("dry-run:" + options.sut + ":" + options.suite)));
    PreparedSut(options, root, hash, world);
  }

  /** Which of the three descriptions the result carries. */
  lemma PreparedSut(options: Options, root: Root, hash: Hash, world: World)
    ensures var sut := Prepared(options, root, hash, world).sut;
      var digest := HexEncode(hash(Utf8("dry-run:" + options.sut + ":" + options.suite)));
      if Describes(options, root, hash, world) then
        sut == Described(CanonicalSut(options.sut), options.image, world.describe, hash).value
      else
        sut == Unavailable(options.sut, hash) || sut == Unavailable(options.sut, hash).(configSha256 := digest)
  {
    hide Described, Unavailable, Utf8, HexEncode, Loaded, ValidCatalog;
  }

  /** If there are tasks to run, they are the valid catalog. */
  ghost predicate Sound(p: Prelude, options: Options, root: Root, hash: Hash) {
    var loaded := Loaded(root.catalog, options.suite);
    match p.tasks
    case Ok(tasks) => loaded == Ok(tasks) && ValidCatalog(root, tasks, hash)
    case Err(_) => true
  }

  lemma PreparedIsSound(options: Options, root: Root, hash: Hash, world: World)
    ensures Sound(Prepared(options, root, hash, world), options, root, hash)
  {
    hide Described, Unavailable, Utf8, HexEncode, Loaded, ValidCatalog;
  }

  ghost predicate Clocked(world: World) { world.started != 0 && world.ended != 0 && world.started <= world.ended }

  lemma OutcomeReports(p: Prelude, options: Options, world: World, e: EngineState)
    ensures var out := RunFrom(p, options, world, e);
      out.result == Finalized(options, world, p.sut, out.st.results, out.err) &&
      (p.tasks.Err? ==> out.st.results == [] && out.err.Some?) &&
      (p.tasks.Ok? ==> ReportsOn(ConfigOf(options, world), p.tasks.value, out.st.results)) &&
      (p.tasks.Ok? ==> (out.err == None <==> |out.st.results| == |p.tasks.value|))
  {
    hide RunTasks, ReportsOn, Finalized;
    if p.tasks.Ok? {
      ResultsReportPrefix(ConfigOf(options, world), p.tasks.value, world.tasks, e, |p.tasks.value|);
    }
  }

  /** Whatever the surroundings do, the result of a run, also the partial one of any early error, passes
      `ValidateRunResult` exactly when the suite is named and the SUT description has no empty part. */
  lemma ProducerMeetsValidator(options: Options, root: Root, hash: Hash, world: World, e: EngineState)
    requires Clocked(world)
    ensures Acceptable(RunOutcome(options, root, hash, world, e).result)
       <==> options.suite != "" && Nameable(options, root, hash, world)
  {
    hide Prepared, Nameable, RunFrom, CompleteSut, FineUpTo, ScoreOf, NewRunID, ReportsOn, Loaded;
    var p := Prepared(options, root, hash, world);
    OutcomeReports(p, options, world, e);
    PreparedIsSound(options, root, hash, world);
    PreparedSutCompleteIff(options, root, hash, world);
    NewRunIDValid(world.seed);
    var results := RunFrom(p, options, world, e).st.results;
    assert FineUpTo(results, |results|) by {
      if p.tasks.Ok? {
        ResultsAreFine(ConfigOf(options, world), root, p.tasks.value, results, hash);
      } else {
        NothingIsFine();
      }
    }
  }

  lemma NothingIsFine()
    ensures FineUpTo([], 0)
  {
  }

  // ----- and the second one -----

  lemma FullResultsCover(cfg: Config, tasks: seq<Task>, results: seq<TaskResult>)
    requires |results| == |tasks| && DistinctIDs(tasks) && ReportsOn(cfg, tasks, results)
    ensures Covers(results, tasks)
  {
    ReportedIDs(tasks, results);
    forall i | 0 <= i < |results|
      ensures ResultKey(results[i]) in TaskKeys(tasks)
    {
      assert ResultKey(results[i]) == TaskKeys(tasks)[i];
    }
  }

  lemma LoadedIsNotEmpty(source: Option<string>, suite: string)
    ensures Loaded(source, suite).Ok? ==> Loaded(source, suite).value != []
  {
    hide ReadText, Flushed;
  }

  /** Over the same checkout the strict check accepts exactly the results of runs that returned no error. */
  lemma StrictAcceptsIffNoError(options: Options, root: Root, hash: Hash, world: World, e: EngineState)
    ensures var out := RunOutcome(options, root, hash, world, e);
      StrictlyValid(root, out.result, hash) <==> out.err == None
  {
    hide Prepared, RunFrom, ReportsOn, Loaded, AllKnown, FitUpTo;
    var p := Prepared(options, root, hash, world);
    OutcomeReports(p, options, world, e);
    PreparedIsSound(options, root, hash, world);
    LoadedIsNotEmpty(root.catalog, options.suite);
    var results := RunFrom(p, options, world, e).st.results;
    if p.tasks.Ok? && |results| == |p.tasks.value| {
      FullResultsCover(ConfigOf(options, world), p.tasks.value, results);
    }
  }

  // ----- what ends the loop -----

  /** Task `k` is to be executed, but no adapter can be constructed for it. */
  predicate Blocked(cfg: Config, tasks: seq<Task>, worlds: nat -> TaskWorld, k: nat)
    requires k < |tasks|
  {
    !Gated(cfg, tasks[k]) && !cfg.dryRun && NewAdapterFault(cfg.image, worlds(k).adapterFault).Some?
  }

  lemma FitRunID(seed: Seed, root: Root, tasks: seq<Task>, hash: Hash, k: nat)
    requires k < |tasks| && ValidCatalog(root, tasks, hash)
    ensures ValidRunID(TaskRunID(NewRunID(seed), tasks[k].id))
  {
    hide HasMaterial, NewRunID, TaskRunID;
    assert FitTask(root, tasks[k], hash);
    TaskRunIDValid(seed, tasks[k].id);
  }

  lemma TurnStopsIff(cfg: Config, st: RunState, t: Task, w: TaskWorld)
    requires ValidRunID(TaskRunID(cfg.runID, t.id))
    ensures var p := RunTask(cfg, st, t, w);
      var fault := NewAdapterFault(cfg.image, w.adapterFault);
      (p.Aborted? <==> !Gated(cfg, t) && !cfg.dryRun && fault.Some?) &&
      (p.Aborted? ==> p == Aborted(st, NoAdapter(fault.value)))
  {
    hide Executed, AtRegistration, TaskRunID, Gated, NewAdapterFault;
  }

  /** In a run over a valid catalog the sink accepts every registration: the loop ends early exactly at the first task
      that is to be executed and gets no adapter. Nothing else that goes wrong stops it, in particular no failed
      clean-up. */
  lemma {:induction false} StopsAtFirstBlocked(cfg: Config, seed: Seed, root: Root, tasks: seq<Task>, hash: Hash,
                                               worlds: nat -> TaskWorld, e: EngineState, n: nat)
    requires n <= |tasks| && ValidCatalog(root, tasks, hash) && cfg.runID == NewRunID(seed)
    ensures var p := RunTasks(cfg, tasks, worlds, e, n);
      var r := |p.st.results|;
      r <= n && (p.Aborted? <==> r < n) && (forall k :: 0 <= k < r ==> !Blocked(cfg, tasks, worlds, k)) &&
      (p.Aborted? ==> Blocked(cfg, tasks, worlds, r) &&
                      p.error == NoAdapter(NewAdapterFault(cfg.image, worlds(r).adapterFault).value))
    ensures RunTasks(cfg, tasks, worlds, e, n).Aborted? <==> exists k :: 0 <= k < n && Blocked(cfg, tasks, worlds, k)
  {
    hide RunTask, ValidCatalog, NewRunID, Gated, NewAdapterFault;
    if n > 0 {
      StopsAtFirstBlocked(cfg, seed, root, tasks, hash, worlds, e, n - 1);
      var p := RunTasks(cfg, tasks, worlds, e, n - 1);
      if p.Going? {
        FitRunID(seed, root, tasks, hash, n - 1);
        TurnStopsIff(cfg, p.st, tasks[n - 1], worlds(n - 1));
        RunTaskReports(cfg, p.st, tasks[n - 1], worlds(n - 1));
      }
    }
  }

  // ----- failed clean-ups -----

  /** The container of the task is created and started. */
  predicate Started(cfg: Config, e: EngineState, t: Task, w: TaskWorld) {
    !Gated(cfg, t) && !cfg.dryRun && NewAdapterFault(cfg.image, w.adapterFault).None? &&
    SpecOf(cfg, t).name !in e.containers &&
    w.create.abs.None? && w.create.create.err.None? && w.create.start.None?
  }

  /** Its removal reports an error, of the container or of the volume. */
  predicate Unclean(cfg: Config, e: EngineState, t: Task, w: TaskWorld) {
    Started(cfg, e, t, w) && (w.destroy.remove.err.Some? || w.destroy.removeVolume.err.Some?)
  }

  /** `Create` succeeds exactly for a started container, and a clean-up after a failed one has nothing to report. */
  lemma StartedIff(cfg: Config, e: EngineState, t: Task, w: TaskWorld)
    requires !Gated(cfg, t) && !cfg.dryRun && NewAdapterFault(cfg.image, w.adapterFault).None?
    ensures var (s, err) := Create(Sys(IDLE, e), SpecOf(cfg, t), w.create);
      (err.None? <==> Started(cfg, e, t, w)) &&
      (err.None? ==> s.adapter == AdapterState(SpecOf(cfg, t).name, true)) &&
      (err.Some? ==> Destroy(s, w.destroy) == (s, None))
    ensures SpecOf(cfg, t).name != ""
  {
    hide Gated, TaskRunID, EngineRemove, EngineRemoveVolume;
    assert SpecOf(cfg, t).taskDir != "";
  }

  lemma DestroyReports(s: Sys, w: DestroyWorld)
    requires s.adapter.created && s.adapter.name != ""
    ensures Destroy(s, w).1.Some? <==> w.remove.err.Some? || w.removeVolume.err.Some?
  {
  }

  lemma ExecKeepsAdapter(s: Sys, w: ExecWorld)
    ensures Exec(s, w).0.adapter == s.adapter
  {
  }

  lemma JudgedCleanup(t: Task, w: TaskWorld, ran: ExecWorld, cleanup: Option<ErrText>, events: seq<Event>)
    ensures Judged(t, w, ran, cleanup, events).cleanupError == TextOf(cleanup)
  {
    hide Accepted, TextOf;
  }

  lemma ExecutedCleanupIff(cfg: Config, st: RunState, t: Task, w: TaskWorld)
    requires !Gated(cfg, t) && !cfg.dryRun && NewAdapterFault(cfg.image, w.adapterFault).None?
    ensures ResultOfExecuted(cfg, st, t, w).cleanupError != "" <==> Unclean(cfg, st.engine, t, w)
  {
    hide Create, Exec, Destroy, Judged, SpecOf, TaskRunID, Replay, EventsFor, TextOf, Handled, Gated;
    StartedIff(cfg, st.engine, t, w);
    var (s1, createErr) := Create(Sys(IDLE, st.engine), SpecOf(cfg, t), w.create);
    if createErr.None? {
      ExecKeepsAdapter(s1, w.exec);
      var (s2, ran) := Exec(s1, w.exec);
      var (s3, destroyErr) := Destroy(s2, w.destroy);
      DestroyReports(s2, w.destroy);
      TextOfIsSecretFree(destroyErr);
      JudgedCleanup(t, w, ran, destroyErr,
                    EventsFor(Replay(st.trace + Handled(w.during)).events, TaskRunID(cfg.runID, t.id)));
    } else {
      TextOfIsSecretFree(None);
    }
  }

  lemma TurnCleanupIff(cfg: Config, st: RunState, t: Task, w: TaskWorld)
    requires RunTask(cfg, st, t, w).Going?
    ensures var results := RunTask(cfg, st, t, w).st.results;
      results != [] && (results[|results| - 1].cleanupError != "" <==> Unclean(cfg, st.engine, t, w))
  {
    hide Executed, NewAdapterFault, Gated, Reports;
    if !Gated(cfg, t) && !cfg.dryRun {
      var st' := AtRegistration(cfg, st, t, w);
      ExecutedReports(cfg, st', t, w);
      ExecutedCleanupIff(cfg, st', t, w);
    }
  }

  /** The clean-up of task `i` fails, when its turn comes. */
  predicate UncleanAt(cfg: Config, tasks: seq<Task>, worlds: nat -> TaskWorld, e: EngineState, i: nat)
    requires i < |tasks|
  {
    Unclean(cfg, RunTasks(cfg, tasks, worlds, e, i).st.engine, tasks[i], worlds(i))
  }

  /** The result of task `i` is fixed when its turn is over. */
  lemma {:induction false} ResultStays(cfg: Config, tasks: seq<Task>, worlds: nat -> TaskWorld, e: EngineState, i: nat,
                                       n: nat)
    requires n <= |tasks| && i < |RunTasks(cfg, tasks, worlds, e, n).st.results|
    ensures i < n && RunTasks(cfg, tasks, worlds, e, i).Going?
    ensures var st := RunTasks(cfg, tasks, worlds, e, i).st;
      |st.results| == i && RunTask(cfg, st, tasks[i], worlds(i)).Going? &&
      |RunTask(cfg, st, tasks[i], worlds(i)).st.results| == i + 1 &&
      RunTask(cfg, st, tasks[i], worlds(i)).st.results[i] == RunTasks(cfg, tasks, worlds, e, n).st.results[i]
  {
    hide RunTask, ReportsOn;
    ResultsReportPrefix(cfg, tasks, worlds, e, n);
    ResultsReportPrefix(cfg, tasks, worlds, e, n - 1);
    var p := RunTasks(cfg, tasks, worlds, e, n - 1);
    if p.Going? {
      RunTaskReports(cfg, p.st, tasks[n - 1], worlds(n - 1));
    }
    if i < |p.st.results| {
      ResultStays(cfg, tasks, worlds, e, i, n - 1);
      if p.Going? {
        var q := RunTask(cfg, p.st, tasks[n - 1], worlds(n - 1));
        assert q.st.results[i] == q.st.results[..|p.st.results|][i];
      }
    }
  }

  /** A result has a clean-up error exactly when its container was started and a removal reported an error. */
  lemma CleanupErrorIff(cfg: Config, tasks: seq<Task>, worlds: nat -> TaskWorld, e: EngineState, n: nat, i: nat)
    requires n <= |tasks| && i < |RunTasks(cfg, tasks, worlds, e, n).st.results|
    ensures i < n
    ensures RunTasks(cfg, tasks, worlds, e, n).st.results[i].cleanupError != ""
       <==> UncleanAt(cfg, tasks, worlds, e, i)
  {
    hide RunTask, RunTasks, Unclean;
    ResultStays(cfg, tasks, worlds, e, i, n);
    TurnCleanupIff(cfg, RunTasks(cfg, tasks, worlds, e, i).st, tasks[i], worlds(i));
  }

  lemma TurnKeepsVerdict(cfg: Config, st: RunState, t: Task, v: TaskWorld, w: TaskWorld)
    requires w == v.(destroy := w.destroy) && RunTask(cfg, st, t, v).Going?
    ensures RunTask(cfg, st, t, w).Going?
    ensures var r, r' := RunTask(cfg, st, t, v).st.results, RunTask(cfg, st, t, w).st.results;
      |r| == |r'| == |st.results| + 1 &&
      r'[|st.results|] == r[|st.results|].(cleanupError := r'[|st.results|].cleanupError)
  {
    hide Create, Exec, Destroy, Judged, SpecOf, TaskRunID, Replay, EventsFor, TextOf, Handled, Gated;
    var st' := AtRegistration(cfg, st, t, v);
    assert st' == AtRegistration(cfg, st, t, w);
    var (s1, createErr) := Create(Sys(IDLE, st'.engine), SpecOf(cfg, t), v.create);
    if createErr.None? {
      var (s2, ran) := Exec(s1, v.exec);
      var events := EventsFor(Replay(st'.trace + Handled(v.during)).events, TaskRunID(cfg.runID, t.id));
      JudgedAlike(t, v, w, ran, events);
      JudgedKeepsVerdict(t, v, ran, Destroy(s2, v.destroy).1, events);
      JudgedKeepsVerdict(t, w, ran, Destroy(s2, w.destroy).1, events);
    }
  }

  lemma JudgedAlike(t: Task, v: TaskWorld, w: TaskWorld, ran: ExecWorld, events: seq<Event>)
    requires w == v.(destroy := w.destroy)
    ensures Judged(t, v, ran, None, events) == Judged(t, w, ran, None, events)
  {
  }

  lemma {:induction false} SameSoFar(cfg: Config, tasks: seq<Task>, vs: nat -> TaskWorld, ws: nat -> TaskWorld,
                                     e: EngineState, n: nat)
    requires n <= |tasks| && forall k: nat :: k < n ==> vs(k) == ws(k)
    ensures RunTasks(cfg, tasks, vs, e, n) == RunTasks(cfg, tasks, ws, e, n)
  {
    hide RunTask;
    if n > 0 {
      SameSoFar(cfg, tasks, vs, ws, e, n - 1);
    }
  }

  /** A failed clean-up hides nothing: two runs whose surroundings differ, up to task `i`, in how its removals go, give
      it the same result, but for the clean-up error. */
  lemma CleanupKeepsVerdict(cfg: Config, tasks: seq<Task>, vs: nat -> TaskWorld, ws: nat -> TaskWorld, e: EngineState,
                            i: nat)
    requires i < |tasks| && RunTasks(cfg, tasks, vs, e, i + 1).Going?
    requires ws(i) == vs(i).(destroy := ws(i).destroy) && forall k: nat :: k < i ==> vs(k) == ws(k)
    ensures RunTasks(cfg, tasks, ws, e, i + 1).Going?
    ensures var r, r' := RunTasks(cfg, tasks, vs, e, i + 1).st.results, RunTasks(cfg, tasks, ws, e, i + 1).st.results;
      |r| == |r'| == i + 1 && r'[..i] == r[..i] && r'[i] == r[i].(cleanupError := r'[i].cleanupError)
  {
    hide RunTask, ReportsOn;
    SameSoFar(cfg, tasks, vs, ws, e, i);
    ResultsReportPrefix(cfg, tasks, vs, e, i);
    var st := RunTasks(cfg, tasks, vs, e, i).st;
    TurnKeepsVerdict(cfg, st, tasks[i], vs(i), ws(i));
    RunTaskReports(cfg, st, tasks[i], vs(i));
    RunTaskReports(cfg, st, tasks[i], ws(i));
  }

  /** The tasks a run goes through. */
  function TasksOf(p: Prelude): seq<Task> { if p.tasks.Ok? then p.tasks.value else [] }

  ghost function TasksOfRun(options: Options, root: Root, hash: Hash, world: World): seq<Task> {
    TasksOf(Prepared(options, root, hash, world))
  }

  /** No result with a clean-up error is followed by another result: what the documented lifecycle asks for. */
  ghost predicate CleanupStopsRun(results: seq<TaskResult>) {
    forall i :: 0 <= i < |results| && results[i].cleanupError != "" ==> i + 1 == |results|
  }

  /** Whether a run ends behind task `i` does not depend on its clean-up, but on the next task. */
  lemma EndsBehindIff(options: Options, root: Root, hash: Hash, world: World, e: EngineState, i: nat)
    requires i < |RunOutcome(options, root, hash, world, e).result.tasks|
    ensures var results := RunOutcome(options, root, hash, world, e).result.tasks;
      var tasks, cfg := TasksOfRun(options, root, hash, world), ConfigOf(options, world);
      i < |tasks| &&
      (results[i].cleanupError != "" <==> UncleanAt(cfg, tasks, world.tasks, e, i)) &&
      (i + 1 == |results| <==> i + 1 == |tasks| || Blocked(cfg, tasks, world.tasks, i + 1))
  {
    hide Prepared, RunTasks, UncleanAt, Blocked, ValidCatalog, NewRunID, Loaded;
    var p := Prepared(options, root, hash, world);
    PreparedIsSound(options, root, hash, world);
    var cfg := ConfigOf(options, world);
    if p.tasks.Ok? {
      var tasks := p.tasks.value;
      StopsAtFirstBlocked(cfg, world.seed, root, tasks, hash, world.tasks, e, |tasks|);
      CleanupErrorIff(cfg, tasks, world.tasks, e, |tasks|, i);
    }
  }

  /** A run keeps the documented rule exactly when each task whose clean-up fails is the last one, or the next one is
      to be executed and gets no adapter. */
  lemma CleanupStopsRunIff(options: Options, root: Root, hash: Hash, world: World, e: EngineState)
    ensures var results := RunOutcome(options, root, hash, world, e).result.tasks;
      var tasks, cfg := TasksOfRun(options, root, hash, world), ConfigOf(options, world);
      |results| <= |tasks| &&
      (CleanupStopsRun(results) <==>
        forall i :: 0 <= i < |results| && UncleanAt(cfg, tasks, world.tasks, e, i) ==>
          i + 1 == |tasks| || Blocked(cfg, tasks, world.tasks, i + 1))
  {
    hide RunOutcome, TasksOfRun, UncleanAt, Blocked;
    var results := RunOutcome(options, root, hash, world, e).result.tasks;
    ResultsFit(options, root, hash, world, e);
    forall i | 0 <= i < |results|
      ensures var tasks, cfg := TasksOfRun(options, root, hash, world), ConfigOf(options, world);
        i < |tasks| &&
        (results[i].cleanupError != "" <==> UncleanAt(cfg, tasks, world.tasks, e, i)) &&
        (i + 1 == |results| <==> i + 1 == |tasks| || Blocked(cfg, tasks, world.tasks, i + 1))
    {
      EndsBehindIff(options, root, hash, world, e, i);
    }
  }

  lemma ResultsFit(options: Options, root: Root, hash: Hash, world: World, e: EngineState)
    ensures |RunOutcome(options, root, hash, world, e).result.tasks| <= |TasksOfRun(options, root, hash, world)|
  {
    hide Prepared, RunTasks, ReportsOn;
    ReportsOnLength(Prepared(options, root, hash, world), options, world, e);
  }

  lemma ReportsOnLength(p: Prelude, options: Options, world: World, e: EngineState)
    ensures |RunFrom(p, options, world, e).st.results| <= |TasksOf(p)|
  {
    hide RunTasks, ReportsOn;
    if p.tasks.Ok? {
      ResultsReportPrefix(ConfigOf(options, world), p.tasks.value, world.tasks, e, |p.tasks.value|);
    }
  }

  /** A run over a valid catalog reports an error exactly when some task is to be executed and gets no adapter. */
  lemma RunStopsIff(options: Options, root: Root, hash: Hash, world: World, e: EngineState)
    requires Prepared(options, root, hash, world).tasks.Ok?
    ensures var tasks, cfg := TasksOfRun(options, root, hash, world), ConfigOf(options, world);
      RunOutcome(options, root, hash, world, e).err.Some?
      <==> exists k :: 0 <= k < |tasks| && Blocked(cfg, tasks, world.tasks, k)
  {
    hide Prepared, RunTasks, Blocked, ValidCatalog, NewRunID, Loaded;
    var p := Prepared(options, root, hash, world);
    PreparedIsSound(options, root, hash, world);
    StopsAtFirstBlocked(ConfigOf(options, world), world.seed, root, p.tasks.value, hash, world.tasks, e,
                        |p.tasks.value|);
  }

  // ----- redaction -----

  /** No text of an error in a result, partial or complete, contains a secret. */
  lemma ResultsAreSecretFree(options: Options, root: Root, hash: Hash, world: World, e: EngineState)
    ensures var r := RunOutcome(options, root, hash, world, e).result;
      SecretFree(r.error) && forall t :: t in r.tasks ==> SecretFree(t.error) && SecretFree(t.cleanupError)
  {
    hide Prepared, RunFrom;
    var p := Prepared(options, root, hash, world);
    var out := RunFrom(p, options, world, e);
    OutcomeReports(p, options, world, e);
    if out.err.Some? {
      SanitizedIsSecretFree(world.wording(out.err.value));
    } else {
      ShortIsSecretFree("");
    }
  }

  // ----- the dangerous gate -----

  lemma {:induction false} NoHighLevels(results: seq<TaskResult>)
    requires forall r :: r in results ==> r.maxLevel != L4 && r.maxLevel != L5
    ensures ScoreOf(results).nL4 == 0 && ScoreOf(results).nL5 == 0 && ScoreOf(results).isolationScore == 0
  {
    CountZeroIff(results, Reached(L4));
    CountZeroIff(results, Reached(L5));
  }

  /** Without the outer VM or without authorization, no run reports lateral movement or escape. */
  lemma NoIsolationScoreWithoutGate(options: Options, root: Root, hash: Hash, world: World, e: EngineState)
    requires !world.outerVM || !options.allowDangerous
    ensures var s := RunOutcome(options, root, hash, world, e).result.summary;
      s.nL4 == 0 && s.nL5 == 0 && s.isolationScore == 0
  {
    hide Prepared, RunFrom, ScoreOf;
    var p := Prepared(options, root, hash, world);
    var results := RunFrom(p, options, world, e).st.results;
    OutcomeReports(p, options, world, e);
    PreparedIsSound(options, root, hash, world);
    if p.tasks.Ok? {
      ReportedLevels(ConfigOf(options, world), root, p.tasks.value, results, hash);
    }
    NoHighLevels(results);
  }

  lemma ReportedLevels(cfg: Config, root: Root, tasks: seq<Task>, results: seq<TaskResult>, hash: Hash)
    requires ReportsOn(cfg, tasks, results) && ValidCatalog(root, tasks, hash) && (!cfg.outerVM || !cfg.allowDangerous)
    ensures forall r :: r in results ==> r.maxLevel != L4 && r.maxLevel != L5
  {
    forall i | 0 <= i < |results|
      ensures results[i].maxLevel != L4 && results[i].maxLevel != L5
    {
      assert Reports(cfg, tasks[i], results[i]) && FitTask(root, tasks[i], hash);
    }
  }
}
