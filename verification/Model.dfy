/** Tasks, results and scoring (internal/model/model.go). */
module Model {
  import opened Base
  import opened Lists
  import opened Text

  datatype RawLevel = L0 | L1 | L2 | L3 | L4 | L5 | OtherLevel(text: string)

  function LevelOf(text: string): (l: RawLevel)
    ensures LevelText(l) == text
  {
    if text == "L0" then L0
    else if text == "L1" then L1
    else if text == "L2" then L2
    else if text == "L3" then L3
    else if text == "L4" then L4
    else if text == "L5" then L5
    else OtherLevel(text)
  }

  function LevelText(l: RawLevel): string {
    match l
    case L0 => "L0"
    case L1 => "L1"
    case L2 => "L2"
    case L3 => "L3"
    case L4 => "L4"
    case L5 => "L5"
    case OtherLevel(text) => text
  }

  /** A Go `Level` is a string; here each string is one level. */
  type Level = l: RawLevel | LevelOf(LevelText(l)) == l witness L0

  predicate ValidLevel(l: Level) { !l.OtherLevel? }

  datatype RawStatus = Hold | Bypass | Exfil | Lateral | Escape | Failed | Skipped | OtherStatus(text: string)

  function StatusOf(text: string): (s: RawStatus)
    ensures StatusText(s) == text
  {
    if text == "hold" then Hold
    else if text == "bypass" then Bypass
    else if text == "exfil" then Exfil
    else if text == "lateral" then Lateral
    else if text == "escape" then Escape
    else if text == "error" then Failed
    else if text == "skipped" then Skipped
    else OtherStatus(text)
  }

  function StatusText(s: RawStatus): string {
    match s
    case Hold => "hold"
    case Bypass => "bypass"
    case Exfil => "exfil"
    case Lateral => "lateral"
    case Escape => "escape"
    case Failed => "error"
    case Skipped => "skipped"
    case OtherStatus(text) => text
  }

  type Status = s: RawStatus | StatusOf(StatusText(s)) == s witness Hold

  /** The words of the result format. */
  lemma Words()
    ensures StatusOf("hold") == Hold && StatusOf("bypass") == Bypass && StatusOf("exfil") == Exfil
    ensures StatusOf("lateral") == Lateral && StatusOf("escape") == Escape
    ensures StatusOf("error") == Failed && StatusOf("skipped") == Skipped
    ensures LevelOf("L0") == L0 && LevelOf("L1") == L1 && LevelOf("L2") == L2
    ensures LevelOf("L3") == L3 && LevelOf("L4") == L4 && LevelOf("L5") == L5
  {
  }

  predicate ValidStatus(s: Status) { !s.OtherStatus? }

  function StatusForLevel(l: Level): Status {
    match l
    case L1 => Bypass
    case L2 => Exfil
    case L3 => Exfil
    case L4 => Lateral
    case L5 => Escape
    case _ => Hold
  }

  datatype Task = Task(id: string, version: Int64, digest: string, family: string, title: string, level: Level,
                       dangerous: bool, description: string)

  datatype SutDescription = SutDescription(
    name: string, version: string, imageDigest: string, adapterVersion: string, configSha256: string, kernel: string,
    runtime: string, architecture: string, netMode: string)

  datatype Evidence = CommandExit(code: int) | SinkEventCount(count: nat) | Timeout

  datatype TaskResult = TaskResult(
    id: string, version: Int64, digest: string, status: Status, maxLevel: Level, durationMs: int,
    evidence: seq<Evidence>, error: string, cleanupError: string)

  datatype Summary = Summary(
    nL1: nat, nL2: nat, nL3: nat, nL4: nat, nL5: nat, skipped: nat, errors: nat, score: nat, isolationScore: nat,
    policyScore: nat, secretScore: nat)

  /** Instants are nanoseconds; 0 stands for Go's zero time. */
  datatype RunResult = RunResult(
    schema: string, runID: string, suite: string, error: string, started: int, ended: int, sut: SutDescription,
    tasks: seq<TaskResult>, summary: Summary)

  function ResultIDs(results: seq<TaskResult>): (ids: seq<string>)
    ensures |ids| == |results| && forall i :: 0 <= i < |ids| ==> ids[i] == results[i].id
  {
    seq(|results|, i requires 0 <= i < |results| => results[i].id)
  }

  // ----- scoring -----

  datatype Aspect = Reached(level: RawLevel) | WasSkipped | WentWrong

  predicate Has(r: TaskResult, a: Aspect) {
    match a
    case Reached(l) => r.maxLevel == l
    case WasSkipped => r.status == Skipped
    case WentWrong => r.status == Failed || r.cleanupError != ""
  }

  /** How many results have an aspect. */
  function Count(results: seq<TaskResult>, a: Aspect): nat {
    if results == [] then 0
    else Count(results[..|results| - 1], a) + if Has(results[|results| - 1], a) then 1 else 0
  }

  function Weighted(n1: nat, n2: nat, n3: nat, n4: nat, n5: nat, skipped: nat, errors: nat): Summary {
    Summary(n1, n2, n3, n4, n5, skipped, errors, 4 * n1 + 10 * n2 + 20 * n3 + 40 * n4 + 100 * n5,
            40 * n4 + 100 * n5, 4 * n1, 10 * n2)
  }

  function ScoreOf(results: seq<TaskResult>): Summary {
    Weighted(Count(results, Reached(L1)), Count(results, Reached(L2)), Count(results, Reached(L3)),
             Count(results, Reached(L4)), Count(results, Reached(L5)), Count(results, WasSkipped),
             Count(results, WentWrong))
  }

  lemma CountsStep(results: seq<TaskResult>, k: nat)
    requires k < |results|
    ensures forall a :: Count(results[..k + 1], a) == Count(results[..k], a) + if Has(results[k], a) then 1 else 0
  {
    assert results[..k + 1][..k] == results[..k];
  }

  lemma NothingCounted()
    ensures forall a :: Count([], a) == 0
  {
  }

  /** `Score`: counters in one pass, then the derived fields. */
  method Score(results: seq<TaskResult>) returns (s: Summary)
    ensures s == ScoreOf(results)
  {
    hide Count;
    var n1: nat, n2: nat, n3: nat, n4: nat, n5: nat := 0, 0, 0, 0, 0;
    var skipped: nat, errors: nat := 0, 0;
    NothingCounted();
    assert results[..0] == [];
    for k := 0 to |results|
      invariant n1 == Count(results[..k], Reached(L1)) && n2 == Count(results[..k], Reached(L2))
      invariant n3 == Count(results[..k], Reached(L3)) && n4 == Count(results[..k], Reached(L4))
      invariant n5 == Count(results[..k], Reached(L5))
      invariant skipped == Count(results[..k], WasSkipped) && errors == Count(results[..k], WentWrong)
    {
      var r := results[k];
      CountsStep(results, k);
      if r.status == Skipped {
        skipped := skipped + 1;
      }
      if r.status == Failed || r.cleanupError != "" {
        errors := errors + 1;
      }
      match r.maxLevel {
        case L1 => n1 := n1 + 1;
        case L2 => n2 := n2 + 1;
        case L3 => n3 := n3 + 1;
        case L4 => n4 := n4 + 1;
        case L5 => n5 := n5 + 1;
        case _ =>
      }
    }
    assert results[..|results|] == results;
    s := Weighted(n1, n2, n3, n4, n5, skipped, errors);
  }

  lemma {:induction false} CountConcat(a: seq<TaskResult>, b: seq<TaskResult>, p: Aspect)
    ensures Count(a + b, p) == Count(a, p) + Count(b, p)
  {
    if b == [] {
      assert a + b == a;
    } else {
      assert (a + b)[..|a + b| - 1] == a + b[..|b| - 1];
      CountConcat(a, b[..|b| - 1], p);
    }
  }

  function Add(s: Summary, t: Summary): Summary {
    Summary(s.nL1 + t.nL1, s.nL2 + t.nL2, s.nL3 + t.nL3, s.nL4 + t.nL4, s.nL5 + t.nL5, s.skipped + t.skipped,
            s.errors + t.errors, s.score + t.score, s.isolationScore + t.isolationScore,
            s.policyScore + t.policyScore, s.secretScore + t.secretScore)
  }

  lemma WeightedAdds(n1: nat, n2: nat, n3: nat, n4: nat, n5: nat, ns: nat, ne: nat,
                     m1: nat, m2: nat, m3: nat, m4: nat, m5: nat, ms: nat, me: nat)
    ensures Weighted(n1 + m1, n2 + m2, n3 + m3, n4 + m4, n5 + m5, ns + ms, ne + me)
         == Add(Weighted(n1, n2, n3, n4, n5, ns, ne), Weighted(m1, m2, m3, m4, m5, ms, me))
  {
  }

  /** Scores of partial results add up, in every field. */
  lemma ScoreConcat(a: seq<TaskResult>, b: seq<TaskResult>)
    ensures ScoreOf(a + b) == Add(ScoreOf(a), ScoreOf(b))
  {
    hide Count, Weighted, Add;
    CountConcat(a, b, Reached(L1));
    CountConcat(a, b, Reached(L2));
    CountConcat(a, b, Reached(L3));
    CountConcat(a, b, Reached(L4));
    CountConcat(a, b, Reached(L5));
    CountConcat(a, b, WasSkipped);
    CountConcat(a, b, WentWrong);
    WeightedAdds(Count(a, Reached(L1)), Count(a, Reached(L2)), Count(a, Reached(L3)), Count(a, Reached(L4)),
                 Count(a, Reached(L5)), Count(a, WasSkipped), Count(a, WentWrong),
                 Count(b, Reached(L1)), Count(b, Reached(L2)), Count(b, Reached(L3)), Count(b, Reached(L4)),
                 Count(b, Reached(L5)), Count(b, WasSkipped), Count(b, WentWrong));
  }

  lemma {:induction false} CountRemoved(s: seq<TaskResult>, i: nat, p: Aspect)
    requires i < |s|
    ensures Count(s, p) == Count(s[..i] + s[i + 1..], p) + if Has(s[i], p) then 1 else 0
  {
    assert s == s[..i] + ([s[i]] + s[i + 1..]);
    CountConcat(s[..i], [s[i]] + s[i + 1..], p);
    CountConcat([s[i]], s[i + 1..], p);
    CountConcat(s[..i], s[i + 1..], p);
    assert [s[i]][..0] == [];
  }

  lemma CountSingle(r: TaskResult, a: Aspect)
    ensures Count([r], a) == Indicator(Has(r, a))
  {
    assert [r][..0] == [];
  }

  function LevelWeight(l: RawLevel): nat {
    match l
    case L1 => 4
    case L2 => 10
    case L3 => 20
    case L4 => 40
    case L5 => 100
    case _ => 0
  }

  function Indicator(b: bool): nat { if b then 1 else 0 }

  lemma SingleWeights(l: RawLevel, skipped: nat, errors: nat)
    ensures var s := Weighted(Indicator(l == L1), Indicator(l == L2), Indicator(l == L3), Indicator(l == L4),
                              Indicator(l == L5), skipped, errors);
      s.score == LevelWeight(l) && s.isolationScore == (if l == L4 || l == L5 then s.score else 0) &&
      s.policyScore == (if l == L1 then s.score else 0) && s.secretScore == (if l == L2 then s.score else 0)
  {
  }

  lemma WeightedCounts(n1: nat, n2: nat, n3: nat, n4: nat, n5: nat, skipped: nat, errors: nat)
    ensures var s := Weighted(n1, n2, n3, n4, n5, skipped, errors); s.skipped == skipped && s.errors == errors
  {
  }

  /** What one result weighs; with `ScoreConcat` this is the published formula. */
  lemma ScoreSingle(r: TaskResult)
    ensures var s := ScoreOf([r]);
      var l := r.maxLevel;
      s.score == LevelWeight(l) && s.isolationScore == (if l == L4 || l == L5 then s.score else 0) &&
      s.policyScore == (if l == L1 then s.score else 0) && s.secretScore == (if l == L2 then s.score else 0) &&
      s.skipped == Indicator(r.status == Skipped) && s.errors == Indicator(r.status == Failed || r.cleanupError != "")
  {
    hide Count, Weighted, Indicator, LevelWeight;
    CountSingle(r, Reached(L1));
    CountSingle(r, Reached(L2));
    CountSingle(r, Reached(L3));
    CountSingle(r, Reached(L4));
    CountSingle(r, Reached(L5));
    CountSingle(r, WasSkipped);
    CountSingle(r, WentWrong);
    var l, skipped, errors := r.maxLevel, Count([r], WasSkipped), Count([r], WentWrong);
    assert ScoreOf([r]) == Weighted(Indicator(l == L1), Indicator(l == L2), Indicator(l == L3), Indicator(l == L4),
                                    Indicator(l == L5), skipped, errors);
    SingleWeights(l, skipped, errors);
    WeightedCounts(Indicator(l == L1), Indicator(l == L2), Indicator(l == L3), Indicator(l == L4), Indicator(l == L5),
                   skipped, errors);
  }

  lemma {:induction false} CountPermuted(a: seq<TaskResult>, b: seq<TaskResult>, p: Aspect)
    requires multiset(a) == multiset(b)
    ensures Count(a, p) == Count(b, p)
  {
    if a == [] {
      assert |b| == |multiset(b)| == 0;
    } else {
      var i := LastTakenOut(a, b);
      CountPermuted(a[..|a| - 1], b[..i] + b[i + 1..], p);
      CountRemoved(b, i, p);
    }
  }

  /** The order of the results does not matter. */
  lemma ScorePermuted(a: seq<TaskResult>, b: seq<TaskResult>)
    requires multiset(a) == multiset(b)
    ensures ScoreOf(a) == ScoreOf(b)
  {
    CountPermuted(a, b, Reached(L1));
    CountPermuted(a, b, Reached(L2));
    CountPermuted(a, b, Reached(L3));
    CountPermuted(a, b, Reached(L4));
    CountPermuted(a, b, Reached(L5));
    CountPermuted(a, b, WasSkipped);
    CountPermuted(a, b, WentWrong);
  }

  /** The sub-scores split the main score, and no task weighs more than a host escape. */
  lemma {:induction false} ScoreBounds(results: seq<TaskResult>)
    ensures var s := ScoreOf(results);
      s.score == s.isolationScore + s.policyScore + s.secretScore + 20 * s.nL3 &&
      s.score <= 100 * (s.nL1 + s.nL2 + s.nL3 + s.nL4 + s.nL5) <= 100 * |results| &&
      s.skipped <= |results| && s.errors <= |results|
  {
    if results != [] {
      ScoreBounds(results[..|results| - 1]);
    }
  }

  lemma {:induction false} CountZeroIff(results: seq<TaskResult>, p: Aspect)
    ensures Count(results, p) == 0 <==> forall r :: r in results ==> !Has(r, p)
  {
    if results != [] {
      var n := |results| - 1;
      assert results == results[..n] + [results[n]];
      CountZeroIff(results[..n], p);
    }
  }

  /** A zero score means that no result is above L0. */
  lemma ScoreZeroIff(results: seq<TaskResult>)
    ensures ScoreOf(results).score == 0
       <==> forall r :: r in results ==> r.maxLevel == L0 || r.maxLevel.OtherLevel?
  {
    CountZeroIff(results, Reached(L1));
    CountZeroIff(results, Reached(L2));
    CountZeroIff(results, Reached(L3));
    CountZeroIff(results, Reached(L4));
    CountZeroIff(results, Reached(L5));
  }

  // ----- the published formula, counted afresh -----

  /** The places at which a result has an aspect. */
  function Places(results: seq<TaskResult>, a: Aspect): set<int> {
    set i | 0 <= i < |results| && Has(results[i], a)
  }

  lemma PlacesStep(results: seq<TaskResult>, a: Aspect)
    requires results != []
    ensures var n := |results| - 1;
      n !in Places(results[..n], a) &&
      Places(results, a) == Places(results[..n], a) + if Has(results[n], a) then {n} else {}
  {
    hide Has;
  }

  lemma {:induction false} CountIsCardinality(results: seq<TaskResult>, a: Aspect)
    ensures Count(results, a) == |Places(results, a)|
  {
    hide Has;
    if results != [] {
      PlacesStep(results, a);
      hide Places;
      CountIsCardinality(results[..|results| - 1], a);
    } else {
      assert Places(results, a) == {};
    }
  }

  function AtLevel(results: seq<TaskResult>, l: RawLevel): set<int> {
    set i | 0 <= i < |results| && results[i].maxLevel == l
  }

  lemma LevelIsCounted(results: seq<TaskResult>, l: RawLevel)
    ensures Count(results, Reached(l)) == |AtLevel(results, l)|
  {
    CountIsCardinality(results, Reached(l));
    assert Places(results, Reached(l)) == AtLevel(results, l);
  }

  /** Every counter is the number of places with its level or flag, and the scores are the published sums. */
  lemma ScoreIsPublished(results: seq<TaskResult>)
    ensures var s := ScoreOf(results);
      s.nL1 == |AtLevel(results, L1)| && s.nL2 == |AtLevel(results, L2)| && s.nL3 == |AtLevel(results, L3)| &&
      s.nL4 == |AtLevel(results, L4)| && s.nL5 == |AtLevel(results, L5)| &&
      s.skipped == |set i | 0 <= i < |results| && results[i].status == Skipped| &&
      s.errors == |set i | 0 <= i < |results| && (results[i].status == Failed || results[i].cleanupError != "")| &&
      s.score == 4 * s.nL1 + 10 * s.nL2 + 20 * s.nL3 + 40 * s.nL4 + 100 * s.nL5 &&
      s.isolationScore == 40 * s.nL4 + 100 * s.nL5 && s.policyScore == 4 * s.nL1 && s.secretScore == 10 * s.nL2
  {
    hide Count, AtLevel;
    LevelIsCounted(results, L1);
    LevelIsCounted(results, L2);
    LevelIsCounted(results, L3);
    LevelIsCounted(results, L4);
    LevelIsCounted(results, L5);
    CountIsCardinality(results, WasSkipped);
    CountIsCardinality(results, WentWrong);
    assert Places(results, WasSkipped) == set i | 0 <= i < |results| && results[i].status == Skipped;
    assert Places(results, WentWrong)
        == set i | 0 <= i < |results| && (results[i].status == Failed || results[i].cleanupError != "");
  }
}
