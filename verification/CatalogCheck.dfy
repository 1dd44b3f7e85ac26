/** Checking a loaded catalog against the task materials, and an archived result against the catalog
    (internal/catalog/catalog.go, `Validate` and `ValidateResult`). */
module CatalogCheck {
  import opened Base
  import opened Lists
  import opened Text
  import opened Identifiers
  import opened Model
  import opened CatalogFile
  import opened Frames
  import opened Materials

  /** A checkout: the text of tasks/catalog.yaml, if it can be opened, and the task directories by ID. */
  datatype Root = Root(catalog: Option<string>, tasks: map<string, Node>)

  const REQUIRED: seq<string> := ["TASK.md", "oracle.py", "attacker", "severity.yaml"]

  /** `os.Stat` of an entry of a task directory; symlinks are followed. */
  predicate HasMaterial(root: Root, id: string, name: string) {
    id in root.tasks && root.tasks[id].Dir? &&
    exists i :: 0 <= i < |root.tasks[id].children| &&
      root.tasks[id].children[i].name == Ascii(name) &&
      match root.tasks[id].children[i].node
      case Symlink(resolves) => resolves
      case Vanished => false
      case _ => true
  }

  function TaskDir(root: Root, id: string): Node { if id in root.tasks then root.tasks[id] else Vanished }

  predicate EqualFold(a: string, b: string) { ToLower(a) == ToLower(b) }

  /** High-impact tasks have to be marked. */
  predicate NeedsMark(t: Task) { t.level == L4 || t.level == L5 || t.family == "G" }

  datatype CatalogFault =
    | DuplicateID(id: string)
    | UnsafeID(id: string)
    | MissingFields(id: string)
    | UnknownLevel(id: string)
    | NoPositiveVersion(id: string)
    | BadDigestLength(id: string)
    | BadDigestDigits(id: string)
    | Unmarked(id: string)
    | MissingMaterial(id: string, name: string)
    | UndigestedMaterial(id: string, cause: WalkFault)
    | DigestMismatch(id: string)

  /** A task that is fit to run: safe ID, complete fields, marked if dangerous, and materials that are present and
      have the declared digest. */
  ghost predicate FitTask(root: Root, t: Task, hash: Hash) {
    ValidID(t.id) && t.family != "" && t.title != "" && ValidLevel(t.level) && t.version >= 1 &&
    IsSha256Text(t.digest) && (NeedsMark(t) ==> t.dangerous) &&
    (forall name :: name in REQUIRED ==> HasMaterial(root, t.id, name)) &&
    DigestOf(t.id, TaskDir(root, t.id), hash).Ok? &&
    EqualFold(t.digest, DigestOf(t.id, TaskDir(root, t.id), hash).value)
  }

  function TaskIDs(tasks: seq<Task>): (ids: seq<string>)
    ensures |ids| == |tasks| && forall i :: 0 <= i < |ids| ==> ids[i] == tasks[i].id
  {
    seq(|tasks|, i requires 0 <= i < |tasks| => tasks[i].id)
  }

  ghost predicate DistinctIDs(tasks: seq<Task>) { NoDuplicates(TaskIDs(tasks)) }

  ghost predicate ValidCatalog(root: Root, tasks: seq<Task>, hash: Hash) {
    DistinctIDs(tasks) && FitUpTo(root, tasks, hash, |tasks|)
  }

  ghost predicate FitUpTo(root: Root, tasks: seq<Task>, hash: Hash, n: nat)
    requires n <= |tasks|
  {
    forall i :: 0 <= i < n ==> FitTask(root, tasks[i], hash)
  }

  lemma OneMoreFit(root: Root, tasks: seq<Task>, hash: Hash, k: nat)
    requires k < |tasks| && FitUpTo(root, tasks, hash, k)
    ensures FitUpTo(root, tasks, hash, k + 1) <==> FitTask(root, tasks[k], hash)
    ensures !FitTask(root, tasks[k], hash) ==> !ValidCatalog(root, tasks, hash)
  {
  }

  lemma {:induction false} HexUtf8(s: string)
    requires forall i :: 0 <= i < |s| ==> IsHex(s[i])
    ensures |Utf8(s)| == |s|
  {
    if s != "" {
      assert IsHex(s[0]) && forall i :: 0 <= i < |s[1..]| ==> IsHex(s[1..][i]) by {
        forall i | 0 <= i < |s[1..]|
          ensures IsHex(s[1..][i])
        {
          assert s[1..][i] == s[i + 1];
        }
      }
      HexUtf8(s[1..]);
    }
  }

  predicate AllHex(s: string) { forall i :: 0 <= i < |s| ==> IsHex(s[i]) }

  ghost predicate Filled(t: Task) { ValidID(t.id) && t.family != "" && t.title != "" && LevelText(t.level) != "" }

  ghost predicate Numbered(t: Task) { Filled(t) && ValidLevel(t.level) && t.version >= 1 }

  ghost predicate GoodEntry(t: Task) {
    Numbered(t) && IsSha256Text(t.digest) && (NeedsMark(t) ==> t.dangerous)
  }

  /** The first of the required entries that is missing. */
  ghost predicate FirstMissing(root: Root, id: string, k: nat) {
    k < |REQUIRED| && !HasMaterial(root, id, REQUIRED[k]) && forall i :: 0 <= i < k ==> HasMaterial(root, id, REQUIRED[i])
  }

  ghost predicate IsFirstMissing(root: Root, id: string, name: string) {
    exists k: nat :: FirstMissing(root, id, k) && REQUIRED[k] == name
  }

  ghost predicate AllThere(root: Root, id: string) { forall name :: name in REQUIRED ==> HasMaterial(root, id, name) }

  /** A fault of a task names the task and the first thing wrong with it. */
  ghost predicate FaultFits(root: Root, t: Task, hash: Hash, fault: CatalogFault) {
    fault.id == t.id &&
    match fault
    case DuplicateID(_) => false
    case UnsafeID(_) => !ValidID(t.id)
    case MissingFields(_) => ValidID(t.id) && !Filled(t)
    case UnknownLevel(_) => Filled(t) && !ValidLevel(t.level)
    case NoPositiveVersion(_) => Filled(t) && ValidLevel(t.level) && t.version < 1
    case BadDigestLength(_) => Numbered(t) && |Utf8(t.digest)| != 64
    case BadDigestDigits(_) => Numbered(t) && |Utf8(t.digest)| == 64 && !IsSha256Text(t.digest)
    case Unmarked(_) => Numbered(t) && IsSha256Text(t.digest) && NeedsMark(t) && !t.dangerous
    case MissingMaterial(_, name) => GoodEntry(t) && IsFirstMissing(root, t.id, name)
    case UndigestedMaterial(_, cause) =>
      GoodEntry(t) && AllThere(root, t.id) && DigestOf(t.id, TaskDir(root, t.id), hash) == Err(cause)
    case DigestMismatch(_) =>
      GoodEntry(t) && AllThere(root, t.id) && DigestOf(t.id, TaskDir(root, t.id), hash).Ok? &&
      !EqualFold(t.digest, DigestOf(t.id, TaskDir(root, t.id), hash).value)
  }

  /** The checks on the catalog entry alone. */
  method EntryFault(t: Task, ghost root: Root, ghost hash: Hash) returns (fault: Option<CatalogFault>)
    ensures fault.Some? ==> FaultFits(root, t, hash, fault.value)
    ensures fault == None <==>
      ValidID(t.id) && t.family != "" && t.title != "" && ValidLevel(t.level) && t.version >= 1 &&
      IsSha256Text(t.digest) && (NeedsMark(t) ==> t.dangerous)
  {
    hide Utf8, DigestOf, HasMaterial, TaskDir;
    if !ValidID(t.id) {
      return Some(UnsafeID(t.id));
    }
    if t.family == "" || t.title == "" || LevelText(t.level) == "" {
      return Some(MissingFields(t.id));
    }
    if !ValidLevel(t.level) {
      return Some(UnknownLevel(t.id));
    }
    if t.version < 1 {
      return Some(NoPositiveVersion(t.id));
    }
    if AllHex(t.digest) {
      HexUtf8(t.digest);
    }
    if |Utf8(t.digest)| != 64 {
      return Some(BadDigestLength(t.id));
    }
    if !AllHex(t.digest) {
      return Some(BadDigestDigits(t.id));
    }
    if (t.level == L4 || t.level == L5 || t.family == "G") && !t.dangerous {
      return Some(Unmarked(t.id));
    }
    return None;
  }

  /** The checks on the materials. */
  method MaterialFault(root: Root, t: Task, hash: Hash) returns (fault: Option<CatalogFault>)
    ensures fault == None <==>
      (forall name :: name in REQUIRED ==> HasMaterial(root, t.id, name)) &&
      DigestOf(t.id, TaskDir(root, t.id), hash).Ok? &&
      EqualFold(t.digest, DigestOf(t.id, TaskDir(root, t.id), hash).value)
    ensures fault.Some? && GoodEntry(t) ==> FaultFits(root, t, hash, fault.value)
  {
    hide Utf8, DigestOf, HasMaterial, TaskDir, GoodEntry, ValidID;
    for k := 0 to |REQUIRED|
      invariant forall i :: 0 <= i < k ==> HasMaterial(root, t.id, REQUIRED[i])
    {
      if !HasMaterial(root, t.id, REQUIRED[k]) {
        assert FirstMissing(root, t.id, k);
        return Some(MissingMaterial(t.id, REQUIRED[k]));
      }
    }
    var digest := Digest(t.id, TaskDir(root, t.id), hash);
    match digest
    case Err(cause) => return Some(UndigestedMaterial(t.id, cause));
    case Ok(value) =>
      if !EqualFold(t.digest, value) {
        return Some(DigestMismatch(t.id));
      }
      return None;
  }

  method TaskFault(root: Root, t: Task, hash: Hash) returns (fault: Option<CatalogFault>)
    ensures fault == None <==> FitTask(root, t, hash)
    ensures fault.Some? ==> FaultFits(root, t, hash, fault.value)
  {
    hide FaultFits, DigestOf, HasMaterial, ValidID, IsSha256Text;
    fault := EntryFault(t, root, hash);
    if fault == None {
      fault := MaterialFault(root, t, hash);
    }
  }

  lemma EmptyIsUnfit(root: Root, t: Task, hash: Hash)
    ensures FitTask(root, t, hash) ==> t.id != ""
  {
  }

  /** Task `k` is the first that repeats an ID or does not fit, and the fault is its own. */
  ghost predicate FirstUnfit(root: Root, tasks: seq<Task>, hash: Hash, k: nat, fault: CatalogFault) {
    k < |tasks| && FitUpTo(root, tasks, hash, k) && NoDuplicates(TaskIDs(tasks)[..k]) &&
    if tasks[k].id == "" || tasks[k].id in Elements(TaskIDs(tasks)[..k]) then fault == DuplicateID(tasks[k].id)
    else FaultFits(root, tasks[k], hash, fault)
  }

  /** `Validate`: accepts exactly the valid catalogs; of another it names the first task that is not right, and what is
      wrong with it. */
  method Validate(root: Root, tasks: seq<Task>, hash: Hash) returns (fault: Option<CatalogFault>)
    ensures fault == None <==> ValidCatalog(root, tasks, hash)
    ensures fault.Some? ==> exists k: nat :: FirstUnfit(root, tasks, hash, k, fault.value)
  {
    hide TaskIDs, FaultFits, FitTask;
    var seen: set<string> := {};
    ghost var ids := TaskIDs(tasks);
    for k := 0 to |tasks|
      invariant seen == Elements(ids[..k]) && NoDuplicates(ids[..k])
      invariant FitUpTo(root, tasks, hash, k)
    {
      var t := tasks[k];
      OneMore(ids, k);
      OneMoreFit(root, tasks, hash, k);
      if t.id == "" || t.id in seen {
        EmptyIsUnfit(root, t, hash);
        fault := Some(DuplicateID(t.id));
        assert FirstUnfit(root, tasks, hash, k, fault.value);
        return;
      }
      fault := TaskFault(root, t, hash);
      if fault.Some? {
        assert FirstUnfit(root, tasks, hash, k, fault.value);
        return;
      }
      seen := seen + {t.id};
    }
    assert ids[..|tasks|] == ids;
    return None;
  }

  // ----- archived results -----

  /** What a result and the catalog have to agree on, the digest in any case. */
  datatype Key = Key(id: string, version: int, digest: string)

  function ResultKey(r: TaskResult): Key { Key(r.id, r.version, ToLower(r.digest)) }

  function TaskKey(t: Task): Key { Key(t.id, t.version, ToLower(t.digest)) }

  function ResultKeys(results: seq<TaskResult>): (keys: seq<Key>)
    ensures |keys| == |results| && forall i :: 0 <= i < |keys| ==> keys[i] == ResultKey(results[i])
  {
    seq(|results|, i requires 0 <= i < |results| => ResultKey(results[i]))
  }

  function TaskKeys(tasks: seq<Task>): (keys: seq<Key>)
    ensures |keys| == |tasks| && forall i :: 0 <= i < |keys| ==> keys[i] == TaskKey(tasks[i])
  {
    seq(|tasks|, i requires 0 <= i < |tasks| => TaskKey(tasks[i]))
  }

  datatype StrictFault =
    | NotLoaded(error: LoadError)
    | NotValid(fault: CatalogFault)
    | WrongCount
    | NotInSuite(id: string)
    | Duplicate(id: string)
    | Drifted(id: string)

  /** What the two maps of `ValidateResult` establish. */
  ghost predicate Covers(results: seq<TaskResult>, tasks: seq<Task>) {
    |results| == |tasks| && NoDuplicates(ResultIDs(results)) && AllKnown(results, tasks, |results|)
  }

  ghost predicate AllKnown(results: seq<TaskResult>, tasks: seq<Task>, n: nat)
    requires n <= |results|
  {
    forall i :: 0 <= i < n ==> ResultKey(results[i]) in TaskKeys(tasks)
  }

  lemma OneMoreKnown(results: seq<TaskResult>, tasks: seq<Task>, k: nat)
    requires k < |results| && AllKnown(results, tasks, k)
    ensures AllKnown(results, tasks, k + 1) <==> ResultKey(results[k]) in TaskKeys(tasks)
    ensures ResultKey(results[k]) !in TaskKeys(tasks) ==> !Covers(results, tasks)
  {
  }

  /** The tasks by their IDs. */
  ghost predicate Indexes(expected: map<string, Task>, tasks: seq<Task>) {
    expected.Keys == Elements(TaskIDs(tasks)) && FindsUpTo(expected, tasks, |tasks|)
  }

  ghost predicate FindsUpTo(expected: map<string, Task>, tasks: seq<Task>, n: nat)
    requires n <= |tasks|
  {
    forall i :: 0 <= i < n ==> tasks[i].id in expected && expected[tasks[i].id] == tasks[i]
  }

  ghost predicate IndexesUpTo(expected: map<string, Task>, tasks: seq<Task>, n: nat)
    requires n <= |tasks|
  {
    |expected| == n && expected.Keys == Elements(TaskIDs(tasks)[..n]) && FindsUpTo(expected, tasks, n)
  }

  lemma IndexesNone(tasks: seq<Task>)
    ensures IndexesUpTo(map[], tasks, 0)
  {
  }

  lemma FindsOneMore(expected: map<string, Task>, tasks: seq<Task>, k: nat)
    requires k < |tasks| && FindsUpTo(expected, tasks, k) && tasks[k].id !in expected
    ensures FindsUpTo(expected[tasks[k].id := tasks[k]], tasks, k + 1)
  {
  }

  lemma IndexesOneMore(expected: map<string, Task>, tasks: seq<Task>, k: nat)
    requires k < |tasks| && IndexesUpTo(expected, tasks, k) && DistinctIDs(tasks)
    ensures IndexesUpTo(expected[tasks[k].id := tasks[k]], tasks, k + 1)
  {
    hide NoDuplicates, FindsUpTo, TaskIDs, Elements;
    OneMore(TaskIDs(tasks), k);
    FindsOneMore(expected, tasks, k);
  }

  lemma IndexesAll(expected: map<string, Task>, tasks: seq<Task>)
    requires IndexesUpTo(expected, tasks, |tasks|)
    ensures Indexes(expected, tasks) && |expected| == |tasks|
  {
    assert TaskIDs(tasks)[..|tasks|] == TaskIDs(tasks);
  }

  method ByID(tasks: seq<Task>) returns (expected: map<string, Task>)
    requires DistinctIDs(tasks)
    ensures Indexes(expected, tasks) && |expected| == |tasks|
  {
    hide IndexesUpTo, Indexes, DistinctIDs;
    expected := map[];
    IndexesNone(tasks);
    for k := 0 to |tasks|
      invariant IndexesUpTo(expected, tasks, k)
    {
      IndexesOneMore(expected, tasks, k);
      expected := expected[tasks[k].id := tasks[k]];
    }
    IndexesAll(expected, tasks);
  }

  /** The key of a result is known exactly when its ID is and version and digest are those of the task. */
  lemma KeyKnownIff(tasks: seq<Task>, expected: map<string, Task>, got: TaskResult)
    requires Indexes(expected, tasks)
    ensures ResultKey(got) in TaskKeys(tasks) <==>
      got.id in expected && got.version == expected[got.id].version && EqualFold(got.digest, expected[got.id].digest)
  {
    hide TaskIDs, TaskKeys;
    if got.id in expected {
      assert got.id in TaskIDs(tasks);
      var i :| 0 <= i < |tasks| && TaskIDs(tasks)[i] == got.id;
      assert tasks[i].id == got.id;
      assert TaskKeys(tasks)[i] == TaskKey(tasks[i]);
    }
    if ResultKey(got) in TaskKeys(tasks) {
      var i :| 0 <= i < |tasks| && TaskKeys(tasks)[i] == ResultKey(got);
      assert tasks[i].id in expected;
    }
  }

  method Drift(ghost tasks: seq<Task>, expected: map<string, Task>, got: TaskResult) returns (drifted: bool)
    requires Indexes(expected, tasks) && got.id in expected
    ensures drifted <==> ResultKey(got) !in TaskKeys(tasks)
  {
    KeyKnownIff(tasks, expected, got);
    var want := expected[got.id];
    return got.version != want.version || !EqualFold(got.digest, want.digest);
  }

  /** Result `k` is the first that is unknown, repeated or drifted, as the fault says. */
  ghost predicate FirstOdd(tasks: seq<Task>, results: seq<TaskResult>, k: nat, fault: StrictFault) {
    k < |results| && NoDuplicates(ResultIDs(results)[..k]) && AllKnown(results, tasks, k) &&
    match fault
    case NotInSuite(id) => id == results[k].id && id !in TaskIDs(tasks)
    case Duplicate(id) => id == results[k].id && id in TaskIDs(tasks) && id in Elements(ResultIDs(results)[..k])
    case Drifted(id) =>
      id == results[k].id && id in TaskIDs(tasks) && id !in Elements(ResultIDs(results)[..k]) &&
      ResultKey(results[k]) !in TaskKeys(tasks)
    case _ => false
  }

  lemma IndexedIff(expected: map<string, Task>, tasks: seq<Task>, id: string)
    requires Indexes(expected, tasks)
    ensures id in expected <==> id in TaskIDs(tasks)
  {
    hide TaskIDs;
  }

  /** The comparison at the end of `ValidateResult`. */
  method Compare(tasks: seq<Task>, results: seq<TaskResult>) returns (fault: Option<StrictFault>)
    requires DistinctIDs(tasks)
    ensures fault == None <==> Covers(results, tasks)
    ensures fault == Some(WrongCount) <==> |results| != |tasks|
    ensures fault.Some? ==> !fault.value.NotLoaded? && !fault.value.NotValid?
    ensures fault.Some? && |results| == |tasks| ==> exists k: nat :: FirstOdd(tasks, results, k, fault.value)
  {
    hide TaskIDs, ResultIDs, TaskKeys, ResultKey, Indexes, AllKnown, NoDuplicates, Elements, Covers, FindsUpTo;
    var expected := ByID(tasks);
    if |results| != |expected| {
      CoversParts(results, tasks);
      return Some(WrongCount);
    }
    var seen: set<string> := {};
    ghost var ids := ResultIDs(results);
    NothingCompared(results, tasks);
    for k := 0 to |results|
      invariant seen == Elements(ids[..k]) && NoDuplicates(ids[..k]) && AllKnown(results, tasks, k)
    {
      var got := results[k];
      OneMore(ids, k);
      OneMoreKnown(results, tasks, k);
      CoversParts(results, tasks);
      IndexedIff(expected, tasks, got.id);
      if got.id !in expected {
        KeyKnownIff(tasks, expected, got);
        assert FirstOdd(tasks, results, k, NotInSuite(got.id));
        return Some(NotInSuite(got.id));
      }
      if got.id in seen {
        assert FirstOdd(tasks, results, k, Duplicate(got.id));
        return Some(Duplicate(got.id));
      }
      seen := seen + {got.id};
      var drifted := Drift(tasks, expected, got);
      if drifted {
        assert FirstOdd(tasks, results, k, Drifted(got.id));
        return Some(Drifted(got.id));
      }
    }
    assert ids[..|results|] == ids;
    CoversParts(results, tasks);
    return None;
  }

  lemma CoversParts(results: seq<TaskResult>, tasks: seq<Task>)
    ensures Covers(results, tasks) <==>
      |results| == |tasks| && NoDuplicates(ResultIDs(results)) && AllKnown(results, tasks, |results|)
  {
  }

  lemma NothingCompared(results: seq<TaskResult>, tasks: seq<Task>)
    ensures Elements(ResultIDs(results)[..0]) == {} && NoDuplicates(ResultIDs(results)[..0])
    ensures AllKnown(results, tasks, 0)
  {
  }

  /** The result covers the catalog of its suite, which loads and is valid. */
  ghost predicate StrictlyValid(root: Root, result: RunResult, hash: Hash) {
    var loaded := Loaded(root.catalog, result.suite);
    loaded.Ok? && ValidCatalog(root, loaded.value, hash) && Covers(result.tasks, loaded.value)
  }

  /** `ValidateResult`: loads and validates the catalog of the suite, then compares. */
  method ValidateResult(root: Root, result: RunResult, hash: Hash) returns (fault: Option<StrictFault>)
    ensures fault == None <==> StrictlyValid(root, result, hash)
    ensures var loaded := Loaded(root.catalog, result.suite);
      match fault
      case None => true
      case Some(NotLoaded(error)) => loaded == Err(error)
      case Some(NotValid(cause)) => loaded.Ok? && exists k: nat :: FirstUnfit(root, loaded.value, hash, k, cause)
      case Some(WrongCount) => loaded.Ok? && ValidCatalog(root, loaded.value, hash) && |result.tasks| != |loaded.value|
      case Some(other) =>
        loaded.Ok? && ValidCatalog(root, loaded.value, hash) && |result.tasks| == |loaded.value| &&
        exists k: nat :: FirstOdd(loaded.value, result.tasks, k, other)
  {
    hide FirstOdd, FirstUnfit, FitUpTo, Covers, AllKnown;
    var loaded := Load(root.catalog, result.suite);
    if loaded.Err? {
      return Some(NotLoaded(loaded.error));
    }
    var invalid := Validate(root, loaded.value, hash);
    if invalid.Some? {
      return Some(NotValid(invalid.value));
    }
    fault := Compare(loaded.value, result.tasks);
  }

  // ----- strict validation is a permutation check -----

  /** The length check and the duplicate check together force full coverage: a result passes exactly when its
      (ID, version, digest) triples are a permutation of those of the catalog. */
  lemma CoversIffPermutation(results: seq<TaskResult>, tasks: seq<Task>)
    requires DistinctIDs(tasks)
    ensures Covers(results, tasks) <==> multiset(ResultKeys(results)) == multiset(TaskKeys(tasks))
  {
    hide TaskIDs, TaskKeys, ResultIDs, ResultKeys;
    var a, b := ResultKeys(results), TaskKeys(tasks);
    KeysDistinct(tasks);
    if Covers(results, tasks) {
      assert NoDuplicates(a);
      forall x | x in a
        ensures x in b
      {
        var i :| 0 <= i < |a| && a[i] == x;
        assert x == ResultKey(results[i]);
      }
      DistinctIncludedIsPermutation(a, b);
    } else if multiset(a) == multiset(b) {
      PermutationCovers(results, tasks);
    }
  }

  lemma SameIDSameKey(tasks: seq<Task>, x: Key, y: Key)
    requires DistinctIDs(tasks) && x in TaskKeys(tasks) && y in TaskKeys(tasks) && x.id == y.id
    ensures x == y
  {
    hide TaskIDs, TaskKeys;
    var k :| 0 <= k < |tasks| && TaskKeys(tasks)[k] == x;
    var l :| 0 <= l < |tasks| && TaskKeys(tasks)[l] == y;
    assert TaskIDs(tasks)[k] == TaskIDs(tasks)[l];
  }

  lemma PermutationCovers(results: seq<TaskResult>, tasks: seq<Task>)
    requires DistinctIDs(tasks) && multiset(ResultKeys(results)) == multiset(TaskKeys(tasks))
    ensures Covers(results, tasks)
  {
    hide TaskKeys, ResultKeys, ResultIDs, TaskIDs;
    var a, b := ResultKeys(results), TaskKeys(tasks);
    assert |a| == |multiset(a)| == |multiset(b)| == |b|;
    KeysDistinct(tasks);
    PermutationKeepsDistinct(a, b);
    forall i | 0 <= i < |results|
      ensures a[i] in b
    {
      assert a[i] in multiset(a);
    }
    forall i, j | 0 <= i < j < |results|
      ensures ResultIDs(results)[i] != ResultIDs(results)[j]
    {
      if a[i].id == a[j].id {
        SameIDSameKey(tasks, a[i], a[j]);
      }
    }
  }

  lemma KeysDistinct(tasks: seq<Task>)
    requires DistinctIDs(tasks)
    ensures NoDuplicates(TaskKeys(tasks))
  {
    hide TaskKeys, TaskIDs;
    forall i, j | 0 <= i < j < |tasks|
      ensures TaskKeys(tasks)[i] != TaskKeys(tasks)[j]
    {
      assert TaskIDs(tasks)[i] != TaskIDs(tasks)[j];
    }
  }
}
