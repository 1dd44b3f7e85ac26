/** What a run reports, case by case, in terms of its options, its catalog and what its surroundings answer
    (internal/runner/runner.go). Nothing here mentions how the runner arrives at it. */
module RunVerdicts {
  import opened Base
  import opened Text
  import opened Redaction
  import opened Identifiers
  import opened Model
  import opened CatalogFile
  import opened CatalogCheck
  import opened Sink
  import opened Adapter
  import opened Runner
  import opened RunFacts
  import opened RunResources
  import opened RunEvidence

  // ----- the result of one task -----

  /** The task is dangerous, and not both outer VM and authorization are there. */
  predicate GateClosed(t: Task, outerVM: bool, allowDangerous: bool) { t.dangerous && !(outerVM && allowDangerous) }

  /** What the status of a level is. */
  function VerdictOf(l: RawLevel): (RawStatus, string, string) {
    match l
    case L1 => (Bypass, "bypass", "L1")
    case L2 => (Exfil, "exfil", "L2")
    case L3 => (Exfil, "exfil", "L3")
    case L4 => (Lateral, "lateral", "L4")
    case L5 => (Escape, "escape", "L5")
    case _ => (Hold, "hold", "L0")
  }

  /** The oracle answers hold at L0. */
  predicate SaysHold(answer: OracleAnswer) { answer == Answer("hold", "L0") }

  /** The oracle answers, on some events, with the declared level above L0 and the status of that level. */
  predicate SaysBreach(t: Task, answer: OracleAnswer, events: seq<Event>) {
    events != [] && t.level in {L1, L2, L3, L4, L5} && answer == Answer(VerdictOf(t.level).1, VerdictOf(t.level).2)
  }

  /** The first removal that fails is reported, the container's before the volume's. */
  function RemovalError(w: DestroyWorld): string {
    if w.remove.err.Some? then Sanitized(w.remove.err.value)
    else if w.removeVolume.err.Some? then Sanitized(w.removeVolume.err.value)
    else ""
  }

  /** Why no container runs: its path, its creation, or its start. */
  function StartError(taken: bool, w: CreateWorld): string {
    if w.abs.Some? then Sanitized(w.abs.value)
    else if w.create.err.Some? then Sanitized("docker create: " + w.create.err.value)
    else if taken then Sanitized("docker create: name already in use")
    else if w.start.Some? then Sanitized("docker start: " + w.start.value)
    else ""
  }

  /** The container is created under a free name and started. */
  predicate Runs(taken: bool, w: CreateWorld) {
    !taken && w.abs.None? && w.create.err.None? && w.start.None?
  }

  ghost predicate Holding(r: TaskResult, answer: OracleAnswer) {
    SaysHold(answer) && r.status == Hold && r.maxLevel == L0 && r.error == ""
  }

  ghost predicate Breaching(t: Task, r: TaskResult, answer: OracleAnswer, events: seq<Event>) {
    SaysBreach(t, answer, events) && r.status == VerdictOf(t.level).0 && r.maxLevel == t.level && r.error == ""
  }

  /** What is wrong with an answer that does not count. */
  function Complaint(answer: OracleAnswer, events: seq<Event>): string {
    match answer
    case NoAnswer(err) => ": " + err
    case NoJson(err) => " returned invalid JSON: " + err
    case Answer(status, level) =>
      if status == "" || level == "" then " returned incomplete result"
      else if status !in ["hold", "bypass", "exfil", "lateral", "escape"] ||
              level !in ["L0", "L1", "L2", "L3", "L4", "L5"] then " returned unknown status or level"
      else if events == [] then " reported a result without sink evidence"
      else if status == "hold" then " returned hold with non-zero level"
      else " returned inconsistent level or status"
  }

  /** An answer that is neither becomes an error that names the task's oracle and says what is wrong. */
  ghost predicate Refusing(t: Task, r: TaskResult, answer: OracleAnswer, events: seq<Event>) {
    !SaysHold(answer) && !SaysBreach(t, answer, events) && r.status == Failed && r.maxLevel == L0 && r.error != "" &&
    r.error == Sanitized("oracle " + t.id + Complaint(answer, events))
  }

  /** The result of a task whose container runs. */
  ghost predicate RanResult(t: Task, w: TaskWorld, events: seq<Event>, r: TaskResult) {
    r.cleanupError == RemovalError(w.destroy) &&
    if w.exec.err.Some? then r.status == Failed && r.maxLevel == L0 && r.error == Sanitized(w.exec.err.value)
    else
      var answer := w.oracle(events);
      Holding(r, answer) || Breaching(t, r, answer, events) || Refusing(t, r, answer, events)
  }

  /** The whole result of a task: `taken` says that its container name is in use when its turn comes, `events` are those
      of its run when the sink is read. */
  ghost predicate ResultOf(t: Task, w: TaskWorld, closed: bool, dryRun: bool, taken: bool, events: seq<Event>,
                           r: TaskResult)
  {
    r.id == t.id && r.version == t.version && r.digest == t.digest && r.durationMs == w.durationMs &&
    if closed then
      r.status == Skipped && r.maxLevel == L0 && r.evidence == [] && r.cleanupError == "" &&
      r.error == GATE_TEXT
    else if dryRun then
      r.status == Skipped && r.maxLevel == L0 && r.evidence == [] && r.cleanupError == "" && r.error == "dry-run"
    else if !Runs(taken, w.create) then
      r.status == Failed && r.maxLevel == L0 && r.evidence == [] && r.cleanupError == "" &&
      r.error == StartError(taken, w.create) && r.error != ""
    else RanResult(t, w, events, r)
  }

  const GATE_TEXT := "dangerous task requires" + " a Firecracker outer" + " VM marker and explicit" + " authorization"

  lemma GateText()
    ensures GATE_REASON == GATE_TEXT
  {
    Associative("dangerous task requires" + " a Firecracker outer", " VM marker and explicit", " authorization");
  }

  lemma RemovalReported(s: Sys, w: DestroyWorld)
    requires s.adapter.created && s.adapter.name != ""
    ensures TextOf(Destroy(s, w).1) == RemovalError(w)
  {
    hide Sanitized;
  }

  lemma StartReported(cfg: Config, e: EngineState, t: Task, w: TaskWorld)
    requires !Gated(cfg, t) && !cfg.dryRun && NewAdapterFault(cfg.image, w.adapterFault).None?
    ensures var taken := SpecOf(cfg, t).name in e.containers;
      var err := Create(Sys(IDLE, e), SpecOf(cfg, t), w.create).1;
      (Started(cfg, e, t, w) <==> Runs(taken, w.create)) &&
      (err.Some? ==> StartError(taken, w.create) == Sanitized(err.value) && Sanitized(err.value) != "")
  {
    hide Sanitized, TaskRunID, ContainerName, Gated;
    var err := Create(Sys(IDLE, e), SpecOf(cfg, t), w.create).1;
    assert SpecOf(cfg, t).taskDir != "";
    assert "docker create: " + "name already in use" == "docker create: name already in use";
    if err.Some? {
      SanitizedNonEmpty(err.value);
    }
  }

  lemma LevelWords(l: Level)
    ensures ValidLevel(l) <==> l in {L0, L1, L2, L3, L4, L5}
    ensures l in {L1, L2, L3, L4, L5} ==>
      VerdictOf(l) == (StatusForLevel(l), StatusText(StatusForLevel(l)), LevelText(l)) && StatusForLevel(l) != Hold
  {
  }

  /** What the checks on the oracle's answer come to. */
  lemma AnswerJudged(t: Task, answer: OracleAnswer, events: seq<Event>)
    ensures var v := Accepted(t.id, answer, |events|, t.level);
      (v.Verdict? <==> SaysHold(answer) || SaysBreach(t, answer, events)) &&
      (v.Verdict? && SaysHold(answer) ==> v.status == Hold && v.level == L0) &&
      (v.Verdict? && SaysBreach(t, answer, events) ==> v.status == VerdictOf(t.level).0 && v.level == t.level)
  {
    AcceptedIff(t.id, answer, |events|, t.level);
    LevelWords(t.level);
    if answer.Answer? && Accepted(t.id, answer, |events|, t.level).Verdict? {
      AcceptedSays(t.id, answer, |events|, t.level);
    }
  }

  lemma AcceptedSays(id: string, answer: OracleAnswer, count: nat, expected: Level)
    requires answer.Answer? && Accepted(id, answer, count, expected).Verdict?
    ensures Accepted(id, answer, count, expected) == Verdict(StatusOf(answer.status), LevelOf(answer.level))
  {
  }

  lemma StatusWords(text: string)
    ensures OracleStatus(StatusOf(text)) <==> text in ["hold", "bypass", "exfil", "lateral", "escape"]
    ensures StatusOf(text) == Hold <==> text == "hold"
  {
    assert StatusText(StatusOf(text)) == text;
  }

  lemma LevelNames(text: string)
    ensures ValidLevel(LevelOf(text)) <==> text in ["L0", "L1", "L2", "L3", "L4", "L5"]
    ensures LevelOf(text) == L0 <==> text == "L0"
  {
    assert LevelText(LevelOf(text)) == text;
  }

  lemma RefusalText(t: Task, answer: OracleAnswer, events: seq<Event>)
    requires Accepted(t.id, answer, |events|, t.level).Refused?
    ensures Accepted(t.id, answer, |events|, t.level).err == "oracle " + t.id + Complaint(answer, events)
  {
    hide StatusOf, LevelOf, OracleStatus, ValidLevel;
    if answer.Answer? {
      StatusWords(answer.status);
      LevelNames(answer.level);
    }
  }

  lemma JudgedResult(t: Task, w: TaskWorld, destroyErr: Option<ErrText>, events: seq<Event>)
    requires TextOf(destroyErr) == RemovalError(w.destroy)
    ensures var r := Judged(t, w, w.exec, destroyErr, events);
      RanResult(t, w, events, r) && r.id == t.id && r.version == t.version && r.digest == t.digest &&
      r.durationMs == w.durationMs
  {
    hide Sanitized, Accepted, TextOf, RemovalError, SaysHold, SaysBreach, Complaint;
    if w.exec.err.None? {
      var answer := w.oracle(events);
      AnswerJudged(t, answer, events);
      var v := Accepted(t.id, answer, |events|, t.level);
      if v.Refused? {
        RefusalText(t, answer, events);
        SanitizedNonEmpty(v.err);
      }
    }
  }

  lemma SkippedTurn(cfg: Config, st: RunState, t: Task, w: TaskWorld)
    requires Gated(cfg, t) || cfg.dryRun
    ensures RunTask(cfg, st, t, w).Going?
    ensures var reason := if Gated(cfg, t) then GATE_REASON else "dry-run";
      RunTask(cfg, st, t, w).st == st.(results := st.results + [SkippedResult(t, w, reason)])
  {
    hide Gated;
  }

  lemma ExecutedResult(cfg: Config, st: RunState, t: Task, w: TaskWorld)
    requires !Gated(cfg, t) && !cfg.dryRun && NewAdapterFault(cfg.image, w.adapterFault).None?
    ensures ResultOf(t, w, false, false, SpecOf(cfg, t).name in st.engine.containers,
                     EventsFor(Replay(st.trace + Handled(w.during)).events, TaskRunID(cfg.runID, t.id)),
                     ResultOfExecuted(cfg, st, t, w))
  {
    hide Create, Exec, Destroy, Judged, SpecOf, TaskRunID, Replay, EventsFor, Sanitized, Handled, Gated, RanResult,
         StartError, Runs, Started, Reports;
    StartedIff(cfg, st.engine, t, w);
    StartReported(cfg, st.engine, t, w);
    var (s1, createErr) := Create(Sys(IDLE, st.engine), SpecOf(cfg, t), w.create);
    if createErr.None? {
      ExecRuns(cfg, st.engine, t, w);
      ExecKeepsAdapter(s1, w.exec);
      var (s2, ran) := Exec(s1, w.exec);
      RemovalReported(s2, w.destroy);
      JudgedResult(t, w, Destroy(s2, w.destroy).1,
                   EventsFor(Replay(st.trace + Handled(w.during)).events, TaskRunID(cfg.runID, t.id)));
    }
  }

  lemma GateIff(cfg: Config, t: Task)
    ensures Gated(cfg, t) <==> GateClosed(t, cfg.outerVM, cfg.allowDangerous)
  {
  }

  lemma TurnResult(cfg: Config, st: RunState, t: Task, w: TaskWorld)
    requires RunTask(cfg, st, t, w).Going?
    ensures var results := RunTask(cfg, st, t, w).st.results;
      results != [] &&
      ResultOf(t, w, GateClosed(t, cfg.outerVM, cfg.allowDangerous), cfg.dryRun,
               SpecOf(cfg, t).name in st.engine.containers,
               EventsFor(Replay(AtRegistration(cfg, st, t, w).trace + Handled(w.during)).events,
                         TaskRunID(cfg.runID, t.id)), results[|results| - 1])
  {
    hide Executed, SpecOf, TaskRunID, Replay, EventsFor, Handled, Gated, GateClosed, RanResult, Runs, StartError,
         NewAdapterFault, Reports;
    GateIff(cfg, t);
    GateText();
    if Gated(cfg, t) || cfg.dryRun {
      SkippedTurn(cfg, st, t, w);
    } else {
      var st' := AtRegistration(cfg, st, t, w);
      ExecutedReports(cfg, st', t, w);
      ExecutedResult(cfg, st', t, w);
    }
  }

  /** The container name of task `i` is in use when its turn comes. */
  predicate Taken(cfg: Config, tasks: seq<Task>, worlds: nat -> TaskWorld, e: EngineState, i: nat)
    requires i < |tasks|
  {
    "holdout-" + Stripped(cfg.runID) + Stripped(ToLower(tasks[i].id))
    in RunTasks(cfg, tasks, worlds, e, i).st.engine.containers
  }

  /** Every result of every run, whatever the surroundings do: skipped for the closed gate or a dry run, an error if no
      container runs, an error for a command that reports one or an oracle whose answer does not count, and otherwise
      the oracle's verdict. */
  lemma EveryResult(options: Options, root: Root, hash: Hash, world: World, e: EngineState, i: nat)
    requires i < |RunOutcome(options, root, hash, world, e).result.tasks|
    ensures var tasks, cfg := TasksOfRun(options, root, hash, world), ConfigOf(options, world);
      i < |tasks| &&
      ResultOf(tasks[i], world.tasks(i), GateClosed(tasks[i], world.outerVM, options.allowDangerous), options.dryRun,
               Taken(cfg, tasks, world.tasks, e, i), EventsAt(cfg, tasks, world.tasks, e, i),
               RunOutcome(options, root, hash, world, e).result.tasks[i])
  {
    hide Prepared, RunTasks, RunTask, ResultOf, GateClosed, AtRegistration, Handled, Replay, EventsFor, ContainerName,
         TaskRunID, NewRunID;
    var p := Prepared(options, root, hash, world);
    var cfg := ConfigOf(options, world);
    if p.tasks.Ok? {
      var tasks := p.tasks.value;
      ResultStays(cfg, tasks, world.tasks, e, i, |tasks|);
      NamesOfTask(cfg.runID, tasks[i].id);
      TurnResult(cfg, RunTasks(cfg, tasks, world.tasks, e, i).st, tasks[i], world.tasks(i));
    }
  }

  // ----- what a turn does to the sink and to the engine -----

  /** The commands of a task, in order: the removals follow a failed start as well as a run. */
  function CommandsOf(name: string, taskDir: string, taken: bool, w: CreateWorld): seq<Command> {
    if w.abs.Some? then []
    else if taken || w.create.err.Some? then [CreateCmd(name, taskDir)]
    else if w.start.Some? then
      [CreateCmd(name, taskDir), StartCmd(name), RemoveCmd(name), VolumeRemoveCmd("holdout-workspace-" + name)]
    else
      [CreateCmd(name, taskDir), StartCmd(name), ExecCmd(name), RemoveCmd(name),
       VolumeRemoveCmd("holdout-workspace-" + name)]
  }

  lemma CommandsIssued(e: EngineState, spec: Spec, c: CreateWorld, x: ExecWorld, d: DestroyWorld)
    requires spec.name != "" && spec.taskDir != ""
    ensures var (s1, createErr) := Create(Sys(IDLE, e), spec, c);
      var s2 := if createErr.Some? then s1 else Exec(s1, x).0;
      Destroy(s2, d).0.engine.log == e.log + CommandsOf(spec.name, spec.taskDir, spec.name in e.containers, c)
  {
  }

  /** A task that is skipped leaves sink and engine alone. Any other registers its run, behind the traffic before it, and
      issues its commands; the sink goes on serving if its container runs. */
  lemma TurnEffects(cfg: Config, st: RunState, t: Task, w: TaskWorld)
    requires RunTask(cfg, st, t, w).Going?
    ensures var after := RunTask(cfg, st, t, w).st;
      var run := cfg.runID + "-" + ToLower(t.id);
      var name := "holdout-" + Stripped(cfg.runID) + Stripped(ToLower(t.id));
      var taken := name in st.engine.containers;
      if GateClosed(t, cfg.outerVM, cfg.allowDangerous) || cfg.dryRun then
        after.trace == st.trace && after.engine == st.engine
      else
        after.trace == st.trace + Handled(w.before) + [Register(run)]
                       + (if Runs(taken, w.create) then Handled(w.during) else []) &&
        after.engine.log == st.engine.log + CommandsOf(name, "tasks/" + t.id, taken, w.create)
  {
    hide Create, Exec, Destroy, Judged, Handled, Gated, GateClosed, Runs, Started, CommandsOf, ContainerName, TaskRunID,
         Replay, EventsFor, Sanitized, TextOf;
    GateIff(cfg, t);
    NamesOfTask(cfg.runID, t.id);
    if Gated(cfg, t) || cfg.dryRun {
      SkippedTurn(cfg, st, t, w);
    } else {
      StartedIff(cfg, st.engine, t, w);
      StartReported(cfg, st.engine, t, w);
      TaskDirNotEmpty(t);
      CommandsIssued(st.engine, SpecOf(cfg, t), w.create, w.exec, w.destroy);
    }
  }

  lemma TaskDirNotEmpty(t: Task)
    ensures "tasks/" + t.id != ""
  {
  }
}
