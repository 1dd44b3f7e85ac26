/** The offline check of archived results and the exit code of a run (internal/model/validation.go,
    cmd/holdout/main.go). */
module Validation {
  import opened Base
  import opened Lists
  import opened Text
  import opened Model

  const SCHEMA := "https://holdout.dev/schema/result.v1.json"

  // ----- what an acceptable result is -----

  predicate CompleteSut(sut: SutDescription) {
    sut.name != "" && sut.version != "" && sut.imageDigest != "" && sut.adapterVersion != "" && sut.kernel != "" &&
    sut.runtime != "" && sut.architecture != "" && sut.netMode != "" && IsSha256Text(sut.configSha256)
  }

  /** A task result that is consistent by itself: its status says what its level says. */
  ghost predicate Consistent(r: TaskResult) {
    r.id != "" && r.version >= 1 && IsSha256Text(r.digest) && r.durationMs >= 0 &&
    match r.status
    case Hold => r.maxLevel == L0
    case Failed => r.maxLevel == L0 && r.error != ""
    case Skipped => r.maxLevel == L0 && r.error != ""
    case Bypass => r.maxLevel == L1
    case Exfil => r.maxLevel == L2 || r.maxLevel == L3
    case Lateral => r.maxLevel == L4
    case Escape => r.maxLevel == L5
    case OtherStatus(_) => false
  }

  /** A task result that is consistent and not a duplicate of an earlier one. */
  ghost predicate Fine(tasks: seq<TaskResult>, i: nat)
    requires i < |tasks|
  {
    Consistent(tasks[i]) && tasks[i].id !in Elements(ResultIDs(tasks)[..i])
  }

  ghost predicate FineUpTo(tasks: seq<TaskResult>, n: nat)
    requires n <= |tasks|
  {
    forall i :: 0 <= i < n ==> Fine(tasks, i)
  }

  ghost predicate WellTimed(r: RunResult) { r.started != 0 && r.ended != 0 && r.started <= r.ended }

  ghost predicate Acceptable(r: RunResult) {
    r.schema == SCHEMA && r.runID != "" && r.suite != "" && WellTimed(r) && CompleteSut(r.sut) &&
    FineUpTo(r.tasks, |r.tasks|) && r.summary == ScoreOf(r.tasks)
  }

  lemma OneMoreFine(tasks: seq<TaskResult>, k: nat)
    requires k < |tasks| && FineUpTo(tasks, k)
    ensures FineUpTo(tasks, k + 1) <==> Fine(tasks, k)
  {
  }

  datatype ResultFault = BadSchema | MissingIdentity | BadTimes | BadSut | BadTask(index: nat) | SummaryDrift

  /** The chain of checks on one task result that has an ID. */
  method Inconsistent(task: TaskResult) returns (broken: bool)
    requires task.id != ""
    ensures broken <==> !Consistent(task)
  {
    if task.version < 1 || !IsSha256Text(task.digest) {
      return true;
    }
    if task.durationMs < 0 || !ValidLevel(task.maxLevel) || !ValidStatus(task.status) {
      return true;
    }
    if task.status == Hold && task.maxLevel != L0 {
      return true;
    }
    if task.status == Failed || task.status == Skipped {
      if task.maxLevel != L0 || task.error == "" {
        return true;
      }
    } else if task.status != Hold && StatusForLevel(task.maxLevel) != task.status {
      return true;
    }
    return false;
  }

  /** The loop over the task results. */
  method FirstBadTask(tasks: seq<TaskResult>) returns (bad: Option<nat>)
    ensures bad == None <==> FineUpTo(tasks, |tasks|)
    ensures bad.Some? ==> bad.value < |tasks| && FineUpTo(tasks, bad.value) && !Fine(tasks, bad.value)
  {
    var seen: set<string> := {};
    ghost var ids := ResultIDs(tasks);
    for k := 0 to |tasks|
      invariant seen == Elements(ids[..k]) && FineUpTo(tasks, k)
    {
      var task := tasks[k];
      OneMoreFine(tasks, k);
      OneMore(ids, k);
      if task.id == "" || task.id in seen {
        return Some(k);
      }
      var broken := Inconsistent(task);
      if broken {
        return Some(k);
      }
      seen := seen + {task.id};
    }
    return None;
  }

  /** Everything `ValidateRunResult` checks before it looks at the tasks. */
  ghost predicate SoundHeader(r: RunResult) {
    r.schema == SCHEMA && r.runID != "" && r.suite != "" && WellTimed(r) && CompleteSut(r.sut)
  }

  /** `ValidateRunResult`: accepts the acceptable results and no others, and names the first thing wrong. */
  method ValidateRunResult(result: RunResult) returns (fault: Option<ResultFault>)
    ensures fault == None <==> Acceptable(result)
    ensures fault == Some(BadSchema) <==> result.schema != SCHEMA
    ensures fault == Some(MissingIdentity) <==> result.schema == SCHEMA && (result.runID == "" || result.suite == "")
    ensures fault == Some(BadTimes) <==>
      result.schema == SCHEMA && result.runID != "" && result.suite != "" && !WellTimed(result)
    ensures fault == Some(BadSut) <==>
      result.schema == SCHEMA && result.runID != "" && result.suite != "" && WellTimed(result) &&
      !CompleteSut(result.sut)
    ensures forall i: nat :: fault == Some(BadTask(i)) <==>
      SoundHeader(result) && i < |result.tasks| && FineUpTo(result.tasks, i) && !Fine(result.tasks, i)
    ensures fault == Some(SummaryDrift) <==>
      SoundHeader(result) && FineUpTo(result.tasks, |result.tasks|) && result.summary != ScoreOf(result.tasks)
  {
    if result.schema != SCHEMA {
      return Some(BadSchema);
    }
    if result.runID == "" || result.suite == "" {
      return Some(MissingIdentity);
    }
    if result.started == 0 || result.ended == 0 || result.ended < result.started {
      return Some(BadTimes);
    }
    if !CompleteSut(result.sut) {
      return Some(BadSut);
    }
    var bad := FirstBadTask(result.tasks);
    if bad.Some? {
      return Some(BadTask(bad.value));
    }
    var expected := Score(result.tasks);
    if result.summary != expected {
      return Some(SummaryDrift);
    }
    return None;
  }

  // ----- the exit code of a run -----

  predicate Incident(r: TaskResult) { r.status == Failed || r.status == Skipped || r.cleanupError != "" }

  predicate Breach(r: TaskResult) { r.status in {Bypass, Exfil, Lateral, Escape} }

  /** The first result that is an incident or a breach decides; an incident counts first within one result. */
  function ExitCodeOf(tasks: seq<TaskResult>): int {
    if tasks == [] then 0
    else if Incident(tasks[0]) then 3
    else if Breach(tasks[0]) then 1
    else ExitCodeOf(tasks[1..])
  }

  /** The loop at the end of `runCommand`. */
  method ExitCode(tasks: seq<TaskResult>) returns (code: int)
    ensures code == ExitCodeOf(tasks)
  {
    for k := 0 to |tasks|
      invariant ExitCodeOf(tasks) == ExitCodeOf(tasks[k..])
    {
      assert tasks[k..][1..] == tasks[k + 1..];
      if tasks[k].status == Failed || tasks[k].status == Skipped || tasks[k].cleanupError != "" {
        return 3;
      }
      if tasks[k].status in {Bypass, Exfil, Lateral, Escape} {
        return 1;
      }
    }
    return 0;
  }

  lemma {:induction false} ExitZeroIff(tasks: seq<TaskResult>)
    ensures ExitCodeOf(tasks) == 0 <==> forall r :: r in tasks ==> !Incident(r) && !Breach(r)
  {
    if tasks != [] {
      assert tasks == [tasks[0]] + tasks[1..];
      ExitZeroIff(tasks[1..]);
    }
  }

  lemma CleanSheetIff(tasks: seq<TaskResult>)
    requires forall t :: t in tasks ==> Consistent(t)
    ensures (forall t :: t in tasks ==> !Incident(t) && !Breach(t)) <==>
      (forall t :: t in tasks ==> t.maxLevel == L0 || t.maxLevel.OtherLevel?) &&
      (forall t :: t in tasks ==> !Has(t, WasSkipped)) && (forall t :: t in tasks ==> !Has(t, WentWrong))
  {
    forall t | t in tasks
      ensures Incident(t) <==> Has(t, WasSkipped) || Has(t, WentWrong)
      ensures Breach(t) <==> !(t.maxLevel == L0 || t.maxLevel.OtherLevel?)
    {
    }
  }

  /** Exit code and summary agree on every acceptable result: 0 exactly for a clean sheet. */
  lemma VerdictAgrees(r: RunResult)
    requires Acceptable(r)
    ensures ExitCodeOf(r.tasks) == 0 <==> r.summary.score == 0 && r.summary.skipped == 0 && r.summary.errors == 0
  {
    ExitZeroIff(r.tasks);
    ScoreZeroIff(r.tasks);
    CountZeroIff(r.tasks, WasSkipped);
    CountZeroIff(r.tasks, WentWrong);
    forall t | t in r.tasks
      ensures Consistent(t)
    {
      var i :| 0 <= i < |r.tasks| && r.tasks[i] == t;
      assert Fine(r.tasks, i);
    }
    CleanSheetIff(r.tasks);
  }

  // ----- the documented priority: incidents before breaches -----

  /** The documented rule: exit code 3 for any incident, before 1 for any breach. */
  ghost function DocumentedExitCode(tasks: seq<TaskResult>): int {
    if exists r :: r in tasks && Incident(r) then 3
    else if exists r :: r in tasks && Breach(r) then 1
    else 0
  }

  /** Some incident comes after a result that is a breach and no incident, with nothing but clean results before. */
  ghost predicate BreachHidesIncident(tasks: seq<TaskResult>) {
    exists i :: 0 <= i < |tasks| && Breach(tasks[i]) &&
      (forall j :: 0 <= j < i ==> !Breach(tasks[j])) &&
      (forall j :: 0 <= j <= i ==> !Incident(tasks[j])) &&
      (exists j :: i < j < |tasks| && Incident(tasks[j]))
  }

  lemma {:induction false} ExitCodeByFirst(tasks: seq<TaskResult>, i: nat)
    requires i < |tasks| && (Breach(tasks[i]) || Incident(tasks[i]))
    requires forall j :: 0 <= j < i ==> !Breach(tasks[j]) && !Incident(tasks[j])
    ensures ExitCodeOf(tasks) == if Incident(tasks[i]) then 3 else 1
  {
    if i > 0 {
      ExitCodeByFirst(tasks[1..], i - 1);
    }
  }

  lemma {:induction false} FirstOffender(tasks: seq<TaskResult>, k: nat) returns (i: nat)
    requires k < |tasks| && (Breach(tasks[k]) || Incident(tasks[k]))
    ensures i < |tasks| && (Breach(tasks[i]) || Incident(tasks[i]))
    ensures forall j :: 0 <= j < i ==> !Breach(tasks[j]) && !Incident(tasks[j])
  {
    if Breach(tasks[0]) || Incident(tasks[0]) {
      i := 0;
    } else {
      var rest := tasks[1..];
      i := FirstOffender(rest, k - 1);
      assert forall j :: 0 < j < |tasks| ==> tasks[j] == rest[j - 1];
      i := i + 1;
    }
  }

  lemma DocumentedIff(tasks: seq<TaskResult>, i: nat)
    requires i < |tasks| && (Breach(tasks[i]) || Incident(tasks[i]))
    requires forall j :: 0 <= j < i ==> !Incident(tasks[j])
    ensures DocumentedExitCode(tasks) == if exists j :: i <= j < |tasks| && Incident(tasks[j]) then 3 else 1
  {
    assert tasks[i] in tasks;
  }

  lemma HiddenBehind(tasks: seq<TaskResult>, i: nat)
    requires i < |tasks| && (Breach(tasks[i]) || Incident(tasks[i]))
    requires forall j :: 0 <= j < i ==> !Breach(tasks[j]) && !Incident(tasks[j])
    ensures BreachHidesIncident(tasks)
       <==> !Incident(tasks[i]) && exists j :: i < j < |tasks| && Incident(tasks[j])
  {
  }

  /** The code keeps the documented priority exactly when no breach hides a later incident. */
  lemma DocumentedPriorityIff(tasks: seq<TaskResult>)
    ensures ExitCodeOf(tasks) == DocumentedExitCode(tasks) <==> !BreachHidesIncident(tasks)
  {
    if k :| 0 <= k < |tasks| && (Breach(tasks[k]) || Incident(tasks[k])) {
      var i := FirstOffender(tasks, k);
      ExitCodeByFirst(tasks, i);
      HiddenBehind(tasks, i);
      DocumentedIff(tasks, i);
    } else {
      ExitZeroIff(tasks);
    }
  }

  /** A two-task run with a breach followed by an error ends with 1 where 3 is documented. */
  lemma PriorityCounterexample(breach: TaskResult, failure: TaskResult)
    requires breach.status == Bypass && breach.cleanupError == "" && failure.status == Failed
    ensures ExitCodeOf([breach, failure]) == 1 && DocumentedExitCode([breach, failure]) == 3
  {
    assert failure in [breach, failure];
  }

  // ----- acceptable results, spelled out -----

  /** 64 hex digits in any case. */
  ghost predicate Hex64(s: string) {
    |s| == 64 && forall c :: c in s ==> '0' <= c <= '9' || 'a' <= c <= 'f' || 'A' <= c <= 'F'
  }

  lemma Sha256TextIff(s: string)
    ensures IsSha256Text(s) <==> Hex64(s)
  {
    if IsSha256Text(s) {
      forall c | c in s
        ensures IsHex(c)
      {
        var i :| 0 <= i < |s| && s[i] == c;
      }
    }
    assert forall i :: 0 <= i < |s| ==> s[i] in s;
  }

  /** The combinations of status and level an archived result may have. */
  const VERDICTS: set<(RawStatus, RawLevel)> := {
    (Hold, L0), (Failed, L0), (Skipped, L0), (Bypass, L1), (Exfil, L2), (Exfil, L3), (Lateral, L4), (Escape, L5)}

  ghost predicate SoundResult(t: TaskResult) {
    t.id != "" && t.version >= 1 && Hex64(t.digest) && t.durationMs >= 0 && (t.status, t.maxLevel) in VERDICTS &&
    (t.error == "" ==> t.status != Failed && t.status != Skipped)
  }

  lemma ConsistentIff(t: TaskResult)
    ensures Consistent(t) <==> SoundResult(t)
  {
    Sha256TextIff(t.digest);
    hide Hex64, IsSha256Text;
    match t.status
    case OtherStatus(_) => assert (t.status, t.maxLevel) !in VERDICTS;
    case _ =>
  }

  ghost predicate FullSut(s: SutDescription) {
    s.name != "" && s.version != "" && s.imageDigest != "" && s.adapterVersion != "" && Hex64(s.configSha256) &&
    s.kernel != "" && s.runtime != "" && s.architecture != "" && s.netMode != ""
  }

  lemma {:induction false} FineIsSound(tasks: seq<TaskResult>)
    ensures FineUpTo(tasks, |tasks|) <==>
      (forall i :: 0 <= i < |tasks| ==> SoundResult(tasks[i])) &&
      (forall i, j :: 0 <= i < j < |tasks| ==> tasks[i].id != tasks[j].id)
  {
    hide Consistent, SoundResult;
    var ids := ResultIDs(tasks);
    forall i | 0 <= i < |tasks|
      ensures Fine(tasks, i) <==> SoundResult(tasks[i]) && forall j :: 0 <= j < i ==> tasks[j].id != tasks[i].id
    {
      ConsistentIff(tasks[i]);
      assert forall j :: 0 <= j < i ==> ids[..i][j] == tasks[j].id;
      if tasks[i].id in Elements(ids[..i]) {
        var j :| 0 <= j < i && ids[..i][j] == tasks[i].id;
      }
      if j :| 0 <= j < i && tasks[j].id == tasks[i].id {
        assert ids[..i][j] in ids[..i];
      }
    }
  }

  /** What `ValidateRunResult` accepts: the schema, an identity, a time range, a full SUT description, results with
      distinct IDs and fitting verdicts, and their score. */
  lemma AcceptableIff(r: RunResult)
    ensures Acceptable(r) <==>
      r.schema == "https://holdout.dev/schema/result.v1.json" && r.runID != "" && r.suite != "" &&
      r.started != 0 && r.ended != 0 && r.started <= r.ended && FullSut(r.sut) &&
      (forall i :: 0 <= i < |r.tasks| ==> SoundResult(r.tasks[i])) &&
      (forall i, j :: 0 <= i < j < |r.tasks| ==> r.tasks[i].id != r.tasks[j].id) && r.summary == ScoreOf(r.tasks)
  {
    hide ScoreOf, FineUpTo, SoundResult, Hex64, IsSha256Text;
    Sha256TextIff(r.sut.configSha256);
    FineIsSound(r.tasks);
  }
}
