/** What the evidence of a task result rests on: the sink traffic of its own run, and nothing else. */
module RunEvidence {
  import opened Base
  import opened Text
  import opened Identifiers
  import opened Model
  import opened Sink
  import opened Adapter
  import opened Runner
  import opened CatalogCheck
  import opened RunFacts
  import opened RunResources

  // ----- the trace of a run -----

  lemma {:induction false} HandledAt(sections: seq<Section>)
    ensures |Handled(sections)| == |sections|
    ensures forall i :: 0 <= i < |sections| ==> Handled(sections)[i] == Handle(sections[i])
  {
    if sections != [] {
      HandledAt(sections[..|sections| - 1]);
    }
  }

  /** Everything the sink has seen when the events of task `i` are read. */
  function TraceAt(cfg: Config, tasks: seq<Task>, worlds: nat -> TaskWorld, e: EngineState, i: nat): seq<Step>
    requires i < |tasks|
  {
    AtRegistration(cfg, RunTasks(cfg, tasks, worlds, e, i).st, tasks[i], worlds(i)).trace + Handled(worlds(i).during)
  }

  function RunIDAt(cfg: Config, tasks: seq<Task>, i: nat): string
    requires i < |tasks|
  {
    TaskRunID(cfg.runID, tasks[i].id)
  }

  /** The events task `i` is judged by. */
  function EventsAt(cfg: Config, tasks: seq<Task>, worlds: nat -> TaskWorld, e: EngineState, i: nat): seq<Event>
    requires i < |tasks|
  {
    EventsFor(Replay(TraceAt(cfg, tasks, worlds, e, i)).events, RunIDAt(cfg, tasks, i))
  }

  // ----- evidence soundness -----

  ghost predicate DistinctLowered(tasks: seq<Task>) {
    forall i, j :: 0 <= i < j < |tasks| ==> ToLower(tasks[i].id) != ToLower(tasks[j].id)
  }

  /** An earlier task that is let through has the same ID but for case. */
  predicate HasTwin(cfg: Config, tasks: seq<Task>, k: nat)
    requires k < |tasks|
  {
    exists i :: 0 <= i < k && IsTwin(cfg, tasks, i, k)
  }

  predicate IsTwin(cfg: Config, tasks: seq<Task>, i: nat, k: nat)
    requires i < |tasks| && k < |tasks|
  {
    !Gated(cfg, tasks[i]) && ToLower(tasks[i].id) == ToLower(tasks[k].id)
  }

  lemma {:induction false} HandledRegistersNothing(sections: seq<Section>, runID: string)
    ensures Register(runID) !in Handled(sections)
  {
    if sections != [] {
      HandledRegistersNothing(sections[..|sections| - 1], runID);
    }
  }

  lemma TurnTrace(cfg: Config, st: RunState, t: Task, w: TaskWorld, runID: string)
    ensures Register(runID) in RunTask(cfg, st, t, w).st.trace ==>
      Register(runID) in st.trace || (!Gated(cfg, t) && runID == TaskRunID(cfg.runID, t.id))
  {
    hide Create, Exec, Destroy, Judged, SpecOf, TaskRunID;
    HandledRegistersNothing(w.before, runID);
    HandledRegistersNothing(w.during, runID);
  }

  /** Before the turn of a task without a twin its run is not registered. */
  lemma {:induction false} NotYetRegistered(cfg: Config, tasks: seq<Task>, worlds: nat -> TaskWorld, e: EngineState,
                                            n: nat, i: nat)
    requires n <= i < |tasks| && !HasTwin(cfg, tasks, i)
    ensures Register(RunIDAt(cfg, tasks, i)) !in RunTasks(cfg, tasks, worlds, e, n).st.trace
  {
    hide RunTask, Gated;
    if n > 0 {
      NotYetRegistered(cfg, tasks, worlds, e, n - 1, i);
      var p := RunTasks(cfg, tasks, worlds, e, n - 1);
      TaskRunIDsCollideIff(cfg.runID, tasks[n - 1].id, tasks[i].id);
      TurnTrace(cfg, p.st, tasks[n - 1], worlds(n - 1), RunIDAt(cfg, tasks, i));
      assert !IsTwin(cfg, tasks, n - 1, i);
    }
  }

  lemma {:induction false} EventsForMember(events: seq<Event>, runID: string) returns (e: Event)
    requires EventsFor(events, runID) != []
    ensures e in events && e.runID == runID
  {
    var n := |events| - 1;
    if events[n].runID == runID {
      e := events[n];
    } else {
      e := EventsForMember(events[..n], runID);
    }
  }

  /** A level above L0 is only given for events in the sink. */
  lemma LevelNeedsEvents(cfg: Config, st: RunState, t: Task, w: TaskWorld)
    requires RunTask(cfg, st, t, w).Going?
    requires var r := RunTask(cfg, st, t, w).st.results; |r| > 0 && r[|r| - 1].maxLevel != L0
    ensures EventsFor(Replay(AtRegistration(cfg, st, t, w).trace + Handled(w.during)).events,
                      TaskRunID(cfg.runID, t.id)) != []
  {
    hide Create, Exec, Destroy, Judged, SpecOf, TaskRunID, Replay, EventsFor, Reports;
    if !Gated(cfg, t) && !cfg.dryRun {
      var st1 := AtRegistration(cfg, st, t, w);
      var (s1, createErr) := Create(Sys(IDLE, st1.engine), SpecOf(cfg, t), w.create);
      if createErr.None? {
        var (s2, ran) := Exec(s1, w.exec);
        var (s3, destroyErr) := Destroy(s2, w.destroy);
        var events := EventsFor(Replay(st1.trace + Handled(w.during)).events, TaskRunID(cfg.runID, t.id));
        JudgedReports(cfg, t, w, ran, destroyErr, events);
      }
    }
  }

  lemma ExecutedEvidence(cfg: Config, st: RunState, t: Task, w: TaskWorld)
    requires !Gated(cfg, t) && !cfg.dryRun
    requires Create(Sys(IDLE, st.engine), SpecOf(cfg, t), w.create).1.None?
    ensures var count := |EventsFor(Replay(st.trace + Handled(w.during)).events, TaskRunID(cfg.runID, t.id))|;
      var evidence := ResultOfExecuted(cfg, st, t, w).evidence;
      SinkEventCount(count) in evidence && (forall k :: SinkEventCount(k) in evidence ==> k == count) &&
      (forall c :: CommandExit(c) in evidence ==> c == w.exec.exitCode) &&
      (CommandExit(w.exec.exitCode) in evidence <==> w.exec.err.Some?) &&
      (Timeout in evidence <==> w.exec.err.Some? && w.exec.deadline)
  {
    hide Create, Exec, Destroy, SpecOf, TaskRunID, Replay, EventsFor, Judged, Handled, Reports;
    var (s1, createErr) := Create(Sys(IDLE, st.engine), SpecOf(cfg, t), w.create);
    var (s2, ran) := Exec(s1, w.exec);
    var (s3, destroyErr) := Destroy(s2, w.destroy);
    ExecRuns(cfg, st.engine, t, w);
    var events := EventsFor(Replay(st.trace + Handled(w.during)).events, TaskRunID(cfg.runID, t.id));
    JudgedEvidence(t, w, ran, destroyErr, events);
  }

  lemma ExecRuns(cfg: Config, e: EngineState, t: Task, w: TaskWorld)
    requires Create(Sys(IDLE, e), SpecOf(cfg, t), w.create).1.None?
    ensures Exec(Create(Sys(IDLE, e), SpecOf(cfg, t), w.create).0, w.exec).1 == w.exec
  {
    SuccessfulCreateOwns(e, SpecOf(cfg, t), w.create);
    NameNotEmpty(cfg, t);
  }

  lemma JudgedEvidence(t: Task, w: TaskWorld, ran: ExecWorld, cleanup: Option<ErrText>, events: seq<Event>)
    ensures var evidence := Judged(t, w, ran, cleanup, events).evidence;
      SinkEventCount(|events|) in evidence && (forall k :: SinkEventCount(k) in evidence ==> k == |events|) &&
      (forall c :: CommandExit(c) in evidence ==> c == ran.exitCode) &&
      (CommandExit(ran.exitCode) in evidence <==> ran.err.Some?) &&
      (Timeout in evidence <==> ran.err.Some? && ran.deadline)
  {
    hide Accepted, TextOf;
  }

  /** One request of run `runID` went through both sections of its handler within `sections`. */
  ghost predicate ServedWithin(sections: seq<Section>, runID: string) {
    exists a, b, thread, req :: 0 <= a < b < |sections| && sections[a] == Check(thread, req) &&
      sections[b] == Append(thread) && WellFormed(req) && RunOf(req) == runID
  }

  lemma NotRegisteredWithin(head: seq<Step>, runID: string, tail: seq<Step>, i: nat)
    requires Register(runID) !in head
    ensures i <= |head| ==> Register(runID) !in (head + [Register(runID)] + tail)[..i]
  {
    if i <= |head| {
      assert (head + [Register(runID)] + tail)[..i] == head[..i];
    }
  }

  /** Where a run is registered in the middle of a trace and nowhere before, its events stem from what follows. */
  lemma EventsStemFromTail(head: seq<Step>, runID: string, sections: seq<Section>)
    requires Register(runID) !in head
    requires EventsFor(Replay(head + [Register(runID)] + Handled(sections)).events, runID) != []
    ensures ServedWithin(sections, runID)
  {
    var trace := head + [Register(runID)] + Handled(sections);
    var e := EventsForMember(Replay(trace).events, runID);
    var thread, req, i, k := StoredOrigin(trace, e);
    var start := |head| + 1;
    NotRegisteredWithin(head, runID, Handled(sections), i);
    assert i >= start;
    HandledAt(sections);
    assert trace[i] == Handled(sections)[i - start] && trace[k] == Handled(sections)[k - start];
    assert sections[i - start] == Check(thread, req) && sections[k - start] == Append(thread);
  }

  /** In every run, a result above L0 of a task without a twin rests on a request under the task's own run ID that the
      sink checked and stored between the registration of the task and its reading. */
  lemma EvidenceIsOwn(cfg: Config, tasks: seq<Task>, worlds: nat -> TaskWorld, e: EngineState, n: nat, i: nat)
    requires n <= |tasks| && i < |RunTasks(cfg, tasks, worlds, e, n).st.results|
    requires RunTasks(cfg, tasks, worlds, e, n).st.results[i].maxLevel != L0
    requires i < |tasks| ==> !HasTwin(cfg, tasks, i)
    ensures i < |tasks| && ServedWithin(worlds(i).during, RunIDAt(cfg, tasks, i))
  {
    hide RunTask, ServedWithin, Replay, EventsFor, RunTasks, HasTwin;
    ResultStays(cfg, tasks, worlds, e, i, n);
    var st := RunTasks(cfg, tasks, worlds, e, i).st;
    var w := worlds(i);
    LevelNeedsEvents(cfg, st, tasks[i], w);
    NotYetRegistered(cfg, tasks, worlds, e, i, i);
    HandledRegistersNothing(w.before, RunIDAt(cfg, tasks, i));
    EventsStemFromTail(st.trace + Handled(w.before), RunIDAt(cfg, tasks, i), w.during);
  }

  lemma DistinctMeansNoTwin(cfg: Config, tasks: seq<Task>, i: nat)
    requires DistinctLowered(tasks) && i < |tasks|
    ensures !HasTwin(cfg, tasks, i)
  {
    hide Gated;
  }

  /** The same, for the results a run over a catalog ends with whose IDs stay distinct in lower case. */
  lemma EvidenceOfRun(options: Options, root: Root, hash: Hash, world: World, e: EngineState, i: nat)
    requires DistinctLowered(TasksOfRun(options, root, hash, world))
    requires var results := RunOutcome(options, root, hash, world, e).result.tasks;
      i < |results| && results[i].maxLevel != L0
    ensures var tasks := TasksOfRun(options, root, hash, world);
      i < |tasks| && ServedWithin(world.tasks(i).during, RunIDAt(ConfigOf(options, world), tasks, i))
  {
    hide Prepared, RunTasks, ServedWithin, HasTwin, DistinctLowered;
    var p := Prepared(options, root, hash, world);
    if p.tasks.Ok? {
      if i < |p.tasks.value| {
        DistinctMeansNoTwin(ConfigOf(options, world), p.tasks.value, i);
      }
      EvidenceIsOwn(ConfigOf(options, world), p.tasks.value, world.tasks, e, |p.tasks.value|, i);
    }
  }

  // ----- IDs that differ in case only -----

  /** The container of task `i` is created and started when its turn comes. */
  predicate StartedAt(cfg: Config, tasks: seq<Task>, worlds: nat -> TaskWorld, e: EngineState, i: nat)
    requires i < |tasks|
  {
    RunTasks(cfg, tasks, worlds, e, i).Going? && ValidRunID(RunIDAt(cfg, tasks, i)) &&
    Started(cfg, RunTasks(cfg, tasks, worlds, e, i).st.engine, tasks[i], worlds(i))
  }

  lemma TurnGrowsTrace(cfg: Config, st: RunState, t: Task, w: TaskWorld)
    ensures st.trace <= RunTask(cfg, st, t, w).st.trace
  {
    hide Create, Exec, Destroy, Judged, SpecOf, TaskRunID, Handled, Gated;
  }

  lemma {:induction false} TracesGrow(cfg: Config, tasks: seq<Task>, worlds: nat -> TaskWorld, e: EngineState, m: nat,
                                      n: nat)
    requires m <= n <= |tasks|
    ensures RunTasks(cfg, tasks, worlds, e, m).st.trace <= RunTasks(cfg, tasks, worlds, e, n).st.trace
  {
    hide RunTask;
    if m < n {
      TracesGrow(cfg, tasks, worlds, e, m, n - 1);
      var p := RunTasks(cfg, tasks, worlds, e, n - 1);
      TurnGrowsTrace(cfg, p.st, tasks[n - 1], worlds(n - 1));
    }
  }

  lemma TurnEvidence(cfg: Config, st: RunState, t: Task, w: TaskWorld)
    requires RunTask(cfg, st, t, w).Going?
    ensures var count := |EventsFor(Replay(AtRegistration(cfg, st, t, w).trace + Handled(w.during)).events,
                                    TaskRunID(cfg.runID, t.id))|;
      var results := RunTask(cfg, st, t, w).st.results;
      results != [] && Evidenced(Started(cfg, st.engine, t, w), count, w.exec, results[|results| - 1].evidence)
  {
    hide Create, Exec, Destroy, Judged, SpecOf, TaskRunID, Handled, Replay, EventsFor, Gated, Reports, NewAdapterFault;
    if !Gated(cfg, t) && !cfg.dryRun {
      var st' := AtRegistration(cfg, st, t, w);
      StartedIff(cfg, st.engine, t, w);
      ExecutedReports(cfg, st', t, w);
      if Started(cfg, st.engine, t, w) {
        ExecutedEvidence(cfg, st', t, w);
      } else {
        NotStartedEvidence(cfg, st', t, w);
      }
      assert RunTask(cfg, st, t, w).st == Executed(cfg, st', t, w);
    }
  }

  lemma NotStartedEvidence(cfg: Config, st: RunState, t: Task, w: TaskWorld)
    requires Create(Sys(IDLE, st.engine), SpecOf(cfg, t), w.create).1.Some?
    ensures ResultOfExecuted(cfg, st, t, w).evidence == []
  {
    hide Create, Destroy, SpecOf, TaskRunID;
  }

  /** Evidence: none unless the container was started; otherwise the number of events, the exit code if the command
      failed, and a mark if it ran into the deadline. */
  ghost predicate Evidenced(started: bool, count: nat, ran: ExecWorld, evidence: seq<Evidence>) {
    if started then
      SinkEventCount(count) in evidence && (forall k :: SinkEventCount(k) in evidence ==> k == count) &&
      (forall c :: CommandExit(c) in evidence ==> c == ran.exitCode) &&
      (CommandExit(ran.exitCode) in evidence <==> ran.err.Some?) &&
      (Timeout in evidence <==> ran.err.Some? && ran.deadline)
    else evidence == []
  }

  /** In every run the evidence of a result counts the events of the task's own run at the time of reading, if its
      container was started, and is empty otherwise. */
  lemma EvidenceCountsEvents(cfg: Config, tasks: seq<Task>, worlds: nat -> TaskWorld, e: EngineState, n: nat, i: nat)
    requires n <= |tasks| && i < |RunTasks(cfg, tasks, worlds, e, n).st.results|
    ensures i < |tasks| && Evidenced(Started(cfg, RunTasks(cfg, tasks, worlds, e, i).st.engine, tasks[i], worlds(i)),
                                     |EventsAt(cfg, tasks, worlds, e, i)|, worlds(i).exec,
                                     RunTasks(cfg, tasks, worlds, e, n).st.results[i].evidence)
  {
    hide RunTask, RunTasks, Started, Evidenced, AtRegistration, Replay, EventsFor, Handled;
    ResultStays(cfg, tasks, worlds, e, i, n);
    TurnEvidence(cfg, RunTasks(cfg, tasks, worlds, e, i).st, tasks[i], worlds(i));
  }

  lemma StartedTurnTrace(cfg: Config, st: RunState, t: Task, w: TaskWorld)
    requires Started(cfg, st.engine, t, w) && ValidRunID(TaskRunID(cfg.runID, t.id))
    ensures RunTask(cfg, st, t, w).Going?
    ensures RunTask(cfg, st, t, w).st.trace == AtRegistration(cfg, st, t, w).trace + Handled(w.during)
  {
    hide Create, Exec, Destroy, Judged, SpecOf, TaskRunID, Handled, Gated, NewAdapterFault;
    StartedIff(cfg, st.engine, t, w);
  }

  /** What the sink has seen when the events of an executed task are read, it has seen when its turn is over. */
  lemma TraceIsKept(cfg: Config, tasks: seq<Task>, worlds: nat -> TaskWorld, e: EngineState, i: nat, k: nat)
    requires i < k < |tasks| && StartedAt(cfg, tasks, worlds, e, i)
    ensures TraceAt(cfg, tasks, worlds, e, i) <= TraceAt(cfg, tasks, worlds, e, k)
  {
    hide RunTask, Started, Handled;
    StartedTurnTrace(cfg, RunTasks(cfg, tasks, worlds, e, i).st, tasks[i], worlds(i));
    TracesGrow(cfg, tasks, worlds, e, i + 1, k);
    var st := RunTasks(cfg, tasks, worlds, e, k).st;
    assert st.trace <= TraceAt(cfg, tasks, worlds, e, k);
  }

  lemma {:induction false} EventsGrow(trace: seq<Step>, more: seq<Step>, runID: string)
    ensures EventsFor(Replay(trace).events, runID) <= EventsFor(Replay(trace + more).events, runID)
  {
    if more == [] {
      assert trace + more == trace;
    } else {
      var n := |more| - 1;
      EventsGrow(trace, more[..n], runID);
      var s := Replay(trace + more[..n]);
      assert (trace + more)[..|trace| + n] == trace + more[..n];
      if more[n].Handle? && more[n].section.Append? && more[n].section.thread in s.inFlight {
        EventsForAppend(s.events, s.inFlight[more[n].section.thread], runID);
      }
    }
  }

  /** In every run, of two tasks whose IDs differ in case only, the later one is judged by all events of the earlier one
      as well. */
  lemma CaseTwinsShareEvidence(cfg: Config, tasks: seq<Task>, worlds: nat -> TaskWorld, e: EngineState, i: nat, k: nat)
    requires i < k < |tasks| && ToLower(tasks[i].id) == ToLower(tasks[k].id) && StartedAt(cfg, tasks, worlds, e, i)
    ensures EventsAt(cfg, tasks, worlds, e, i) <= EventsAt(cfg, tasks, worlds, e, k)
  {
    hide RunTasks, Replay, EventsFor, AtRegistration, StartedAt;
    TraceIsKept(cfg, tasks, worlds, e, i, k);
    var t, u := TraceAt(cfg, tasks, worlds, e, i), TraceAt(cfg, tasks, worlds, e, k);
    assert u == t + u[|t|..];
    TaskRunIDsCollideIff(cfg.runID, tasks[i].id, tasks[k].id);
    EventsGrow(t, u[|t|..], RunIDAt(cfg, tasks, i));
  }

  /** The oracle of a task answers, on what it is shown, with the declared level and its status. */
  predicate Reported(t: Task, w: TaskWorld, events: seq<Event>) {
    w.oracle(events) == Answer(StatusText(StatusForLevel(t.level)), LevelText(t.level))
  }

  lemma ReportedIsJudged(t: Task, w: TaskWorld, ran: ExecWorld, cleanup: Option<ErrText>, events: seq<Event>)
    requires ran.err.None? && Reported(t, w, events) && events != [] && ValidLevel(t.level) && t.level != L0
    ensures Judged(t, w, ran, cleanup, events).maxLevel == t.level
  {
    AcceptedIff(t.id, w.oracle(events), |events|, t.level);
    AcceptedSound(t.id, w.oracle(events), |events|, t.level);
    LevelTextInjective(t.level);
    var v := Accepted(t.id, w.oracle(events), |events|, t.level);
    assert v.Verdict? && v.level == LevelOf(LevelText(t.level));
  }

  lemma LevelTextInjective(l: Level)
    ensures LevelText(l) == "L0" <==> l == L0
  {
    assert LevelOf(LevelText(l)) == l;
  }

  lemma StartedResult(cfg: Config, st: RunState, t: Task, w: TaskWorld)
    requires Started(cfg, st.engine, t, w) && ValidRunID(TaskRunID(cfg.runID, t.id)) && w.exec.err.None?
    requires ValidLevel(t.level) && t.level != L0
    requires var events := EventsFor(Replay(AtRegistration(cfg, st, t, w).trace + Handled(w.during)).events,
                                     TaskRunID(cfg.runID, t.id));
      events != [] && Reported(t, w, events)
    ensures RunTask(cfg, st, t, w).Going?
    ensures var results := RunTask(cfg, st, t, w).st.results;
      results != [] && results[|results| - 1].maxLevel == t.level
  {
    hide Create, Exec, Destroy, Judged, SpecOf, TaskRunID, Handled, Gated, NewAdapterFault, Replay, EventsFor, Reported;
    var st' := AtRegistration(cfg, st, t, w);
    StartedIff(cfg, st.engine, t, w);
    ExecRuns(cfg, st.engine, t, w);
    var events := EventsFor(Replay(st'.trace + Handled(w.during)).events, TaskRunID(cfg.runID, t.id));
    var (s1, createErr) := Create(Sys(IDLE, st'.engine), SpecOf(cfg, t), w.create);
    var (s2, ran) := Exec(s1, w.exec);
    ReportedIsJudged(t, w, ran, Destroy(s2, w.destroy).1, events);
  }

  /** A task whose twin left events gets its declared level without a single request of its own. */
  lemma TwinScoresUnserved(cfg: Config, tasks: seq<Task>, worlds: nat -> TaskWorld, e: EngineState, i: nat, k: nat)
    requires i < k < |tasks| && ToLower(tasks[i].id) == ToLower(tasks[k].id)
    requires StartedAt(cfg, tasks, worlds, e, i) && EventsAt(cfg, tasks, worlds, e, i) != []
    requires StartedAt(cfg, tasks, worlds, e, k) && worlds(k).during == [] && worlds(k).exec.err.None?
    requires Reported(tasks[k], worlds(k), EventsAt(cfg, tasks, worlds, e, k))
    requires ValidLevel(tasks[k].level) && tasks[k].level != L0
    ensures var results := RunTasks(cfg, tasks, worlds, e, k + 1).st.results;
      |results| == k + 1 && results[k].maxLevel == tasks[k].level
    ensures !ServedWithin(worlds(k).during, RunIDAt(cfg, tasks, k))
  {
    hide RunTask, Started, Handled, Replay, EventsFor, Reported, AtRegistration, ReportsOn;
    CaseTwinsShareEvidence(cfg, tasks, worlds, e, i, k);
    StartedResult(cfg, RunTasks(cfg, tasks, worlds, e, k).st, tasks[k], worlds(k));
    ResultsReportPrefix(cfg, tasks, worlds, e, k + 1);
  }

  /** Whatever the surroundings do, a result of task `k` above L0 rests on a request of its own. */
  ghost predicate RestsOnOwn(cfg: Config, tasks: seq<Task>, worlds: nat -> TaskWorld, e: EngineState, k: nat)
    requires k < |tasks|
  {
    var results := RunTasks(cfg, tasks, worlds, e, k + 1).st.results;
    k < |results| && results[k].maxLevel != L0 ==> ServedWithin(worlds(k).during, RunIDAt(cfg, tasks, k))
  }

  /** A task that can get a level at all. */
  predicate CanScore(cfg: Config, t: Task) { !cfg.dryRun && cfg.image != "" && !Gated(cfg, t) && t.level != L0 }

  lemma CannotScore(cfg: Config, tasks: seq<Task>, worlds: nat -> TaskWorld, e: EngineState, k: nat)
    requires k < |tasks| && !CanScore(cfg, tasks[k])
    ensures RestsOnOwn(cfg, tasks, worlds, e, k)
  {
    hide RunTask, ServedWithin, Gated;
    ResultsReportPrefix(cfg, tasks, worlds, e, k + 1);
    var results := RunTasks(cfg, tasks, worlds, e, k + 1).st.results;
    if k < |results| {
      assert Reports(cfg, tasks[k], results[k]);
      ResultStays(cfg, tasks, worlds, e, k, k + 1);
      if cfg.image == "" && !cfg.dryRun && !Gated(cfg, tasks[k]) {
        NoImageNoTurn(cfg, RunTasks(cfg, tasks, worlds, e, k).st, tasks[k], worlds(k));
      }
    }
  }

  lemma NoImageNoTurn(cfg: Config, st: RunState, t: Task, w: TaskWorld)
    requires cfg.image == "" && !cfg.dryRun && !Gated(cfg, t)
    ensures RunTask(cfg, st, t, w).Aborted?
  {
  }

  // ----- surroundings in which a twin scores -----

  function GetRequest(runID: string): Request { Request("GET", runID, "", "", 0, "", false) }

  /** One request of the run, by one handler. */
  function OneRequest(runID: string): seq<Section> { [Check(0, GetRequest(runID)), Append(0)] }

  /** All commands succeed and the oracle reports `level`; `sections` run at the sink. */
  function SmoothWorld(level: Level, sections: seq<Section>): TaskWorld {
    var ok := RemoveOutcome(None, true);
    TaskWorld(None, [], CreateWorld(None, CreateOutcome(None, true, true), None, ok, ok), ExecWorld(0, None, false),
              sections, DestroyWorld(ok, ok),
              (events: seq<Event>) => Answer(StatusText(StatusForLevel(level)), LevelText(level)), 0)
  }

  /** Smooth surroundings in which the sink gets one request, during task `i`. */
  function TwinWorlds(level: Level, runID: string, i: nat): nat -> TaskWorld {
    (j: nat) => SmoothWorld(level, if j == i then OneRequest(runID) else [])
  }

  const BARE_ENGINE := EngineState({}, {}, [])

  lemma SmoothTurn(cfg: Config, st: RunState, t: Task, level: Level, sections: seq<Section>)
    requires cfg.image != "" && !cfg.dryRun && st.engine.containers == {} && ValidRunID(TaskRunID(cfg.runID, t.id))
    ensures var w := SmoothWorld(level, sections);
      var p := RunTask(cfg, st, t, w);
      p.Going? && p.st.engine.containers == {} &&
      (!Gated(cfg, t) ==> Started(cfg, st.engine, t, w)) &&
      (p.st.trace == st.trace ||
       p.st.trace == st.trace + [Register(TaskRunID(cfg.runID, t.id))] + Handled(sections))
  {
    hide Judged, SpecOf, TaskRunID, Handled, Gated, Replay, EventsFor;
    var w := SmoothWorld(level, sections);
    if !Gated(cfg, t) {
      StartedIff(cfg, st.engine, t, w);
      CreateDestroyEffect(st.engine, SpecOf(cfg, t), w.create, w.exec, w.destroy);
      DestroyReports(Exec(Create(Sys(IDLE, st.engine), SpecOf(cfg, t), w.create).0, w.exec).0, w.destroy);
      NoneHandled(st.trace);
      StartedTurnTrace(cfg, st, t, w);
    }
  }

  lemma NoneHandled(trace: seq<Step>)
    ensures trace + Handled([]) == trace
  {
  }

  lemma RegisterOnly(trace: seq<Step>, runID: string)
    requires Replay(trace).inFlight == map[]
    ensures Replay(trace + [Register(runID)] + Handled([])).inFlight == map[]
  {
    NoneHandled(trace + [Register(runID)]);
    assert (trace + [Register(runID)])[..|trace|] == trace;
  }

  lemma {:induction false} SmoothRun(cfg: Config, tasks: seq<Task>, level: Level, runID: string, i: nat, n: nat)
    requires n <= |tasks| && cfg.image != "" && !cfg.dryRun
    requires forall j :: 0 <= j < |tasks| ==> ValidRunID(RunIDAt(cfg, tasks, j))
    ensures var p := RunTasks(cfg, tasks, TwinWorlds(level, runID, i), BARE_ENGINE, n);
      p.Going? && p.st.engine.containers == {} && (n <= i ==> Replay(p.st.trace).inFlight == map[])
  {
    hide RunTask, SmoothWorld, Replay, Started, Handled;
    var worlds := TwinWorlds(level, runID, i);
    if n == 0 {
      NothingInFlight();
    } else {
      SmoothRun(cfg, tasks, level, runID, i, n - 1);
      var st := RunTasks(cfg, tasks, worlds, BARE_ENGINE, n - 1).st;
      assert ValidRunID(RunIDAt(cfg, tasks, n - 1));
      SmoothTurn(cfg, st, tasks[n - 1], level, if n - 1 == i then OneRequest(runID) else []);
      if n <= i {
        RegisterOnly(st.trace, RunIDAt(cfg, tasks, n - 1));
      }
    }
  }

  lemma NothingInFlight()
    ensures Replay([]).inFlight == map[]
  {
  }

  lemma SmoothIsStarted(cfg: Config, tasks: seq<Task>, level: Level, runID: string, i: nat, k: nat)
    requires k < |tasks| && cfg.image != "" && !cfg.dryRun && !Gated(cfg, tasks[k])
    requires forall j :: 0 <= j < |tasks| ==> ValidRunID(RunIDAt(cfg, tasks, j))
    ensures StartedAt(cfg, tasks, TwinWorlds(level, runID, i), BARE_ENGINE, k)
  {
    hide RunTask, SmoothWorld, Replay, Started, Gated;
    SmoothRun(cfg, tasks, level, runID, i, k);
    assert ValidRunID(RunIDAt(cfg, tasks, k));
    var st := RunTasks(cfg, tasks, TwinWorlds(level, runID, i), BARE_ENGINE, k).st;
    SmoothTurn(cfg, st, tasks[k], level, if k == i then OneRequest(runID) else []);
  }

  /** The one request is stored. */
  lemma RequestIsStored(head: seq<Step>, runID: string)
    requires Replay(head).inFlight == map[] && ValidRunID(runID)
    ensures EventsFor(Replay(head + [Register(runID)] + Handled(OneRequest(runID))).events, runID) != []
  {
    var sections := OneRequest(runID);
    HandledAt(sections);
    assert Handled(sections) == [Handle(sections[0]), Handle(sections[1])];
    var t1 := head + [Register(runID)];
    var t2 := t1 + [Handle(sections[0])];
    var t3 := t2 + [Handle(sections[1])];
    assert t1 + Handled(sections) == t3;
    assert t1[..|t1| - 1] == head && t2[..|t2| - 1] == t1 && t3[..|t3| - 1] == t2;
    var event := EventOf(GetRequest(runID));
    assert Replay(t2).inFlight == map[0 := event];
    EventsForAppend(Replay(t2).events, event, runID);
  }

  lemma SmoothParts(t: Task, sections: seq<Section>, events: seq<Event>)
    ensures var w := SmoothWorld(t.level, sections);
      w.before == [] && w.during == sections && w.exec.err.None? && Reported(t, w, events)
  {
  }

  lemma TwinCounterexample(cfg: Config, tasks: seq<Task>, i: nat, k: nat)
    requires i < k < |tasks| && IsTwin(cfg, tasks, i, k) && CanScore(cfg, tasks[k]) && ValidLevel(tasks[k].level)
    requires forall j :: 0 <= j < |tasks| ==> ValidRunID(RunIDAt(cfg, tasks, j))
    ensures !RestsOnOwn(cfg, tasks, TwinWorlds(tasks[k].level, RunIDAt(cfg, tasks, i), i), BARE_ENGINE, k)
  {
    hide RunTasks, Replay, EventsFor, StartedAt, Gated, Handled, ServedWithin, SmoothWorld, OneRequest, Reported;
    var level, runID := tasks[k].level, RunIDAt(cfg, tasks, i);
    var worlds := TwinWorlds(level, runID, i);
    SmoothRun(cfg, tasks, level, runID, i, i);
    SmoothIsStarted(cfg, tasks, level, runID, i, i);
    SmoothIsStarted(cfg, tasks, level, runID, i, k);
    var st := RunTasks(cfg, tasks, worlds, BARE_ENGINE, i).st;
    NoneHandled(st.trace);
    RequestIsStored(st.trace, runID);
    SmoothParts(tasks[k], OneRequest(runID), EventsAt(cfg, tasks, worlds, BARE_ENGINE, k));
    SmoothParts(tasks[k], [], EventsAt(cfg, tasks, worlds, BARE_ENGINE, k));
    assert worlds(i) == SmoothWorld(level, OneRequest(runID)) && worlds(k) == SmoothWorld(level, []);
    TwinScoresUnserved(cfg, tasks, worlds, BARE_ENGINE, i, k);
  }

  /** Over a valid catalog, a level of task `k` rests on a request of its own in every run, whatever the surroundings do,
      exactly when the task cannot score at all or no earlier task that is let through has its ID but for case. */
  lemma EvidenceIsOwnIff(cfg: Config, seed: Seed, root: Root, tasks: seq<Task>, hash: Hash, k: nat)
    requires k < |tasks| && ValidCatalog(root, tasks, hash) && cfg.runID == NewRunID(seed)
    ensures (forall worlds: nat -> TaskWorld, e: EngineState :: RestsOnOwn(cfg, tasks, worlds, e, k))
       <==> !CanScore(cfg, tasks[k]) || !HasTwin(cfg, tasks, k)
  {
    hide RestsOnOwn, CanScore, Gated, FitTask, NewRunID;
    forall worlds: nat -> TaskWorld, e: EngineState | !CanScore(cfg, tasks[k]) || !HasTwin(cfg, tasks, k)
      ensures RestsOnOwn(cfg, tasks, worlds, e, k)
    {
      if !CanScore(cfg, tasks[k]) {
        CannotScore(cfg, tasks, worlds, e, k);
      } else {
        NoTwinRestsOnOwn(cfg, tasks, worlds, e, k);
      }
    }
    if CanScore(cfg, tasks[k]) && HasTwin(cfg, tasks, k) {
      var i: nat :| i < k && IsTwin(cfg, tasks, i, k);
      forall j | 0 <= j < |tasks|
        ensures ValidRunID(RunIDAt(cfg, tasks, j))
      {
        FitRunID(seed, root, tasks, hash, j);
      }
      FitLevel(root, tasks, hash, k);
      TwinCounterexample(cfg, tasks, i, k);
      assert !RestsOnOwn(cfg, tasks, TwinWorlds(tasks[k].level, RunIDAt(cfg, tasks, i), i), BARE_ENGINE, k);
    }
  }

  lemma FitLevel(root: Root, tasks: seq<Task>, hash: Hash, k: nat)
    requires k < |tasks| && ValidCatalog(root, tasks, hash)
    ensures ValidLevel(tasks[k].level)
  {
    assert FitTask(root, tasks[k], hash);
  }

  lemma NoTwinRestsOnOwn(cfg: Config, tasks: seq<Task>, worlds: nat -> TaskWorld, e: EngineState, k: nat)
    requires k < |tasks| && !HasTwin(cfg, tasks, k)
    ensures RestsOnOwn(cfg, tasks, worlds, e, k)
  {
    hide RunTasks, ServedWithin, HasTwin;
    var results := RunTasks(cfg, tasks, worlds, e, k + 1).st.results;
    if k < |results| && results[k].maxLevel != L0 {
      EvidenceIsOwn(cfg, tasks, worlds, e, k + 1, k);
    }
  }

  // ----- no other traffic matters -----

  /** Two sets of surroundings that differ in the sink traffic at most. */
  ghost predicate SameButTraffic(v: TaskWorld, w: TaskWorld) {
    v.adapterFault == w.adapterFault && v.create == w.create && v.exec == w.exec && v.destroy == w.destroy &&
    v.oracle == w.oracle && v.durationMs == w.durationMs
  }

  ghost predicate AlikeSoFar(p: Progress, q: Progress) {
    (p.Going? <==> q.Going?) && p.st.engine == q.st.engine && |p.st.results| == |q.st.results|
  }

  lemma TurnsAlike(cfg: Config, st: RunState, st': RunState, t: Task, v: TaskWorld, w: TaskWorld)
    requires SameButTraffic(v, w) && st.engine == st'.engine && |st.results| == |st'.results|
    ensures AlikeSoFar(RunTask(cfg, st, t, v), RunTask(cfg, st', t, w))
  {
    hide Create, Exec, Destroy, Judged, SpecOf, Replay, EventsFor;
  }

  lemma {:induction false} RunsAlike(cfg: Config, tasks: seq<Task>, vs: nat -> TaskWorld, ws: nat -> TaskWorld,
                                     e: EngineState, n: nat)
    requires n <= |tasks| && forall i: nat :: SameButTraffic(vs(i), ws(i))
    ensures AlikeSoFar(RunTasks(cfg, tasks, vs, e, n), RunTasks(cfg, tasks, ws, e, n))
  {
    hide RunTask, SameButTraffic;
    if n > 0 {
      RunsAlike(cfg, tasks, vs, ws, e, n - 1);
      var p, q := RunTasks(cfg, tasks, vs, e, n - 1), RunTasks(cfg, tasks, ws, e, n - 1);
      TurnsAlike(cfg, p.st, q.st, tasks[n - 1], vs(n - 1), ws(n - 1));
    }
  }

  /** The result of a turn depends on the traffic through the events of the own run only. */
  lemma SameEventsSameResult(cfg: Config, st: RunState, st': RunState, t: Task, v: TaskWorld, w: TaskWorld)
    requires SameButTraffic(v, w) && st.engine == st'.engine && |st.results| == |st'.results|
    requires EventsFor(Replay(AtRegistration(cfg, st, t, v).trace + Handled(v.during)).events, TaskRunID(cfg.runID, t.id))
      == EventsFor(Replay(AtRegistration(cfg, st', t, w).trace + Handled(w.during)).events, TaskRunID(cfg.runID, t.id))
    requires RunTask(cfg, st, t, v).Going?
    ensures RunTask(cfg, st', t, w).Going?
    ensures var r, r' := RunTask(cfg, st, t, v).st.results, RunTask(cfg, st', t, w).st.results;
      |r| == |st.results| + 1 == |r'| && r[|st.results|] == r'[|st.results|]
  {
    hide Create, Exec, Destroy, SpecOf, Replay, EventsFor;
  }

  /** Two runs that differ in sink traffic at most, and not in the traffic of the run of task `i`, give task `i` the
      same result: what others send, to whatever run but this one, changes nothing. */
  lemma OtherTrafficChangesNothing(cfg: Config, tasks: seq<Task>, vs: nat -> TaskWorld, ws: nat -> TaskWorld,
                                   e: EngineState, n: nat, i: nat)
    requires n <= |tasks| && forall k: nat :: SameButTraffic(vs(k), ws(k))
    requires i < |RunTasks(cfg, tasks, vs, e, n).st.results| && i < |tasks|
    requires OneRequestPerThread(TraceAt(cfg, tasks, vs, e, i)) && OneRequestPerThread(TraceAt(cfg, tasks, ws, e, i))
    requires Project(TraceAt(cfg, tasks, vs, e, i), RunIDAt(cfg, tasks, i))
          == Project(TraceAt(cfg, tasks, ws, e, i), RunIDAt(cfg, tasks, i))
    ensures i < |RunTasks(cfg, tasks, ws, e, n).st.results|
    ensures RunTasks(cfg, tasks, vs, e, n).st.results[i] == RunTasks(cfg, tasks, ws, e, n).st.results[i]
  {
    hide RunTask, RunTasks, Replay, EventsFor, Project, OneRequestPerThread, SameButTraffic;
    RunsAlike(cfg, tasks, vs, ws, e, n);
    RunsAlike(cfg, tasks, vs, ws, e, i);
    ResultStays(cfg, tasks, vs, e, i, n);
    ResultStays(cfg, tasks, ws, e, i, n);
    NonInterference(TraceAt(cfg, tasks, vs, e, i), RunIDAt(cfg, tasks, i));
    NonInterference(TraceAt(cfg, tasks, ws, e, i), RunIDAt(cfg, tasks, i));
    var st, st' := RunTasks(cfg, tasks, vs, e, i).st, RunTasks(cfg, tasks, ws, e, i).st;
    SameEventsSameResult(cfg, st, st', tasks[i], vs(i), ws(i));
  }
}
