/** What a catalog that validates says about the checkout: its digests pin the visible, normalised files. */
module CheckoutFacts {
  import opened Base
  import opened Text
  import opened Identifiers
  import opened Frames
  import opened Materials
  import opened MaterialFacts
  import opened Model
  import opened CatalogCheck
  import PathSort
  import Validation

  // ----- digests as texts -----

  lemma HexDigitInjective(a: int, b: int)
    requires 0 <= a < 16 && 0 <= b < 16
    ensures HexDigit(a) == HexDigit(b) <==> a == b
  {
  }

  lemma {:induction false} HexEncodeInjective(a: bytes, b: bytes)
    ensures HexEncode(a) == HexEncode(b) <==> a == b
  {
    var s, t := HexEncode(a), HexEncode(b);
    if a != [] && b != [] {
      var m, n := a[0] as int, b[0] as int;
      assert s[0] == HexDigit(m / 16) && s[1] == HexDigit(m % 16) && s[2..] == HexEncode(a[1..]);
      assert t[0] == HexDigit(n / 16) && t[1] == HexDigit(n % 16) && t[2..] == HexEncode(b[1..]);
      HexDigitInjective(m / 16, n / 16);
      HexDigitInjective(m % 16, n % 16);
      HexEncodeInjective(a[1..], b[1..]);
      if s == t {
        assert m == m / 16 * 16 + m % 16 && n == n / 16 * 16 + n % 16;
        assert a == [a[0]] + a[1..] && b == [b[0]] + b[1..];
      }
    }
  }

  /** Folding case loses nothing of a hex digest. */
  lemma FoldedDigests(declared: string, a: Sum256, b: Sum256)
    requires EqualFold(declared, HexEncode(a))
    ensures EqualFold(declared, HexEncode(b)) <==> a == b
  {
    HexEncodeInjective(a, b);
  }

  // ----- checkouts -----

  /** What the operating system guarantees of the task directories. */
  ghost predicate NamedWell(root: Root) {
    forall id :: id in root.tasks && root.tasks[id].Dir? ==> WellNamed(root.tasks[id].children)
  }

  /** The task directory is there with everything required, and the walk gets through it. */
  ghost predicate Walkable(root: Root, id: string) {
    id in root.tasks && root.tasks[id].Dir? && (forall name :: name in REQUIRED ==> HasMaterial(root, id, name)) &&
    WalkChildren([], root.tasks[id].children).Ok?
  }

  lemma NotTheCache(id: string)
    requires ValidID(id)
    ensures id != "__pycache__"
  {
    assert IsAlnum(id[0]);
  }

  lemma FitIsWalkable(root: Root, t: Task, hash: Hash)
    requires FitTask(root, t, hash)
    ensures Walkable(root, t.id)
  {
    hide StreamOf, HexEncode, EqualFold;
    NotTheCache(t.id);
    assert "TASK.md" == REQUIRED[0];
    assert HasMaterial(root, t.id, "TASK.md");
  }

  /** Two checkouts hold the same visible files for a task, text normalised. */
  ghost predicate SameMaterials(r: Root, s: Root, id: string)
    requires Walkable(r, id) && Walkable(s, id)
  {
    forall path, data :: Holds(r.tasks[id].children, path, data) <==> Holds(s.tasks[id].children, path, data)
  }

  function StreamAt(root: Root, id: string): Result<bytes, WalkFault> { DigestStream(id, TaskDir(root, id)) }

  /** The hash does not confuse the streams of the two checkouts. */
  ghost predicate NoCollision(r: Root, s: Root, tasks: seq<Task>, hash: Hash) {
    forall t :: t in tasks && StreamAt(r, t.id).Ok? && StreamAt(s, t.id).Ok? ==>
      (hash(StreamAt(r, t.id).value) == hash(StreamAt(s, t.id).value) ==> StreamAt(r, t.id) == StreamAt(s, t.id))
  }

  lemma SameStreamIff(r: Root, s: Root, id: string)
    requires ValidID(id) && NamedWell(r) && NamedWell(s) && Walkable(r, id) && Walkable(s, id)
    ensures StreamAt(r, id).Ok? && StreamAt(s, id).Ok?
    ensures StreamAt(r, id) == StreamAt(s, id) <==> SameMaterials(r, s, id)
  {
    hide Holds, WellNamed, HasMaterial, StreamOf;
    NotTheCache(id);
    StreamIsCanonical(id, id, r.tasks[id].children, s.tasks[id].children);
  }

  /** A task that fits one checkout fits another one exactly when that holds the same files for it. */
  lemma FitsAlsoIff(r: Root, s: Root, tasks: seq<Task>, t: Task, hash: Hash)
    requires NamedWell(r) && NamedWell(s) && NoCollision(r, s, tasks, hash)
    requires t in tasks && FitTask(r, t, hash)
    ensures Walkable(r, t.id)
    ensures FitTask(s, t, hash) <==> Walkable(s, t.id) && SameMaterials(r, s, t.id)
  {
    hide SameMaterials, DigestStream, HexEncode, EqualFold, HasMaterial, ValidID, IsSha256Text, NamedWell;
    FitIsWalkable(r, t, hash);
    if FitTask(s, t, hash) {
      FitIsWalkable(s, t, hash);
    }
    if Walkable(s, t.id) {
      SameStreamIff(r, s, t.id);
      var a, b := StreamAt(r, t.id).value, StreamAt(s, t.id).value;
      FoldedDigests(t.digest, hash(a), hash(b));
    }
  }

  /** Over a hash that confuses none of the streams, a catalog that validates one checkout validates another exactly when
      that has, for every task, the required entries, nothing the walk refuses, and the same visible files with the same
      normalised contents. */
  lemma CatalogPinsMaterials(r: Root, s: Root, tasks: seq<Task>, hash: Hash)
    requires NamedWell(r) && NamedWell(s) && NoCollision(r, s, tasks, hash)
    requires ValidCatalog(r, tasks, hash)
    ensures forall t :: t in tasks ==> Walkable(r, t.id)
    ensures ValidCatalog(s, tasks, hash) <==>
      forall t :: t in tasks ==> Walkable(s, t.id) && SameMaterials(r, s, t.id)
  {
    hide FitTask, SameMaterials, NoCollision, Walkable, DistinctIDs, NamedWell;
    forall t | t in tasks
      ensures Walkable(r, t.id)
      ensures FitTask(s, t, hash) <==> Walkable(s, t.id) && SameMaterials(r, s, t.id)
    {
      var i :| 0 <= i < |tasks| && tasks[i] == t;
      FitsAlsoIff(r, s, tasks, t, hash);
    }
    if ValidCatalog(s, tasks, hash) {
      forall t | t in tasks
        ensures Walkable(s, t.id) && SameMaterials(r, s, t.id)
      {
        var i :| 0 <= i < |tasks| && tasks[i] == t;
        assert FitTask(s, tasks[i], hash);
      }
    } else {
      var i :| 0 <= i < |tasks| && !FitTask(s, tasks[i], hash);
      assert tasks[i] in tasks;
    }
  }

  // ----- valid catalogs, spelled out -----

  /** The task directory has an entry of that name that is there, or a symlink to something that is. */
  ghost predicate Present(root: Root, id: string, name: string) {
    id in root.tasks && root.tasks[id].Dir? &&
    exists e :: e in root.tasks[id].children && e.name == Ascii(name) && e.node != Vanished &&
      (e.node.Symlink? ==> e.node.resolves)
  }

  lemma PresentIff(root: Root, id: string, name: string)
    ensures HasMaterial(root, id, name) <==> Present(root, id, name)
  {
    hide Ascii;
    if Present(root, id, name) {
      var e :| e in root.tasks[id].children && e.name == Ascii(name) && e.node != Vanished &&
        (e.node.Symlink? ==> e.node.resolves);
      var i :| 0 <= i < |root.tasks[id].children| && root.tasks[id].children[i] == e;
    }
  }

  lemma RequiredIff(root: Root, id: string)
    ensures (forall name :: name in REQUIRED ==> HasMaterial(root, id, name)) <==>
      Present(root, id, "TASK.md") && Present(root, id, "oracle.py") && Present(root, id, "attacker") &&
      Present(root, id, "severity.yaml")
  {
    hide HasMaterial, Present;
    PresentIff(root, id, "TASK.md");
    PresentIff(root, id, "oracle.py");
    PresentIff(root, id, "attacker");
    PresentIff(root, id, "severity.yaml");
    assert REQUIRED[0] == "TASK.md" && REQUIRED[1] == "oracle.py" && REQUIRED[2] == "attacker" &&
           REQUIRED[3] == "severity.yaml" && |REQUIRED| == 4;
  }

  /** No symlink and nothing unreadable outside the skipped directories, and the digest of the visible, normalised,
      sorted files is the declared one in any case. */
  ghost predicate DigestFits(root: Root, t: Task, hash: Hash)
    requires t.id in root.tasks && root.tasks[t.id].Dir?
  {
    var children := root.tasks[t.id].children;
    (forall names, node :: At(children, names, node) ==> !Refused(node)) &&
    WalkChildren([], children).Ok? &&
    ToLower(t.digest) == HexEncode(hash(Stream(PathSort.Sorted(NormalizeAll(WalkChildren([], children).value)))))
  }

  /** The entry of the task is complete. */
  ghost predicate EntryFits(t: Task) {
    TaskIDText(t.id) && t.family != "" && t.title != "" && t.level in {L0, L1, L2, L3, L4, L5} && t.version >= 1 &&
    Validation.Hex64(t.digest) && (t.level == L4 || t.level == L5 || t.family == "G" ==> t.dangerous)
  }

  lemma DigestFitsIff(root: Root, t: Task, hash: Hash)
    requires t.id in root.tasks && root.tasks[t.id].Dir? && ValidID(t.id)
    ensures DigestFits(root, t, hash) <==>
      DigestOf(t.id, TaskDir(root, t.id), hash).Ok? &&
      EqualFold(t.digest, DigestOf(t.id, TaskDir(root, t.id), hash).value)
  {
    hide At, Refused, WalkChildren, StreamOf, HexEncode, ToLower, ValidID;
    var children := root.tasks[t.id].children;
    NotTheCache(t.id);
    WalkRefusesIff([], children);
    var walk := WalkChildren([], children);
    assert walk.Ok? <==> forall names, node :: At(children, names, node) ==> !Refused(node);
    if walk.Ok? {
      var stream := StreamOf(walk.value);
      StreamSpelledOut(walk.value);
      DigestIsFolded(hash(stream));
      assert DigestOf(t.id, TaskDir(root, t.id), hash) == Ok(HexEncode(hash(stream)));
    }
  }

  lemma StreamSpelledOut(found: seq<FileEntry>)
    ensures StreamOf(found) == Stream(PathSort.Sorted(NormalizeAll(found)))
  {
  }

  /** What `Validate` accepts of one task. */
  lemma FitTaskIff(root: Root, t: Task, hash: Hash)
    ensures FitTask(root, t, hash) <==>
      EntryFits(t) && Present(root, t.id, "TASK.md") && Present(root, t.id, "oracle.py") &&
      Present(root, t.id, "attacker") && Present(root, t.id, "severity.yaml") && DigestFits(root, t, hash)
  {
    hide DigestFits, DigestOf, EqualFold, IsSha256Text, ValidID, TaskIDText, HasMaterial, Present;
    ValidIDIff(t.id);
    Validation.Sha256TextIff(t.digest);
    RequiredIff(root, t.id);
    PresentIsDir(root, t.id);
    if ValidID(t.id) && Present(root, t.id, "TASK.md") {
      DigestFitsIff(root, t, hash);
    }
  }

  lemma PresentIsDir(root: Root, id: string)
    ensures Present(root, id, "TASK.md") ==> id in root.tasks && root.tasks[id].Dir?
  {
  }

  lemma DigestIsFolded(h: Sum256)
    ensures ToLower(HexEncode(h)) == HexEncode(h)
  {
  }

  /** What `Validate` accepts: distinct IDs, and tasks that fit. */
  lemma ValidCatalogIff(root: Root, tasks: seq<Task>, hash: Hash)
    ensures ValidCatalog(root, tasks, hash) <==>
      (forall i, j :: 0 <= i < j < |tasks| ==> tasks[i].id != tasks[j].id) &&
      forall t :: t in tasks ==> FitTask(root, t, hash)
  {
    hide FitTask;
    var ids := TaskIDs(tasks);
    assert forall i, j :: 0 <= i < j < |tasks| ==> (tasks[i].id != tasks[j].id <==> ids[i] != ids[j]);
    if forall t :: t in tasks ==> FitTask(root, t, hash) {
      assert forall i :: 0 <= i < |tasks| ==> tasks[i] in tasks;
    }
    if ValidCatalog(root, tasks, hash) {
      forall t | t in tasks
        ensures FitTask(root, t, hash)
      {
        var i :| 0 <= i < |tasks| && tasks[i] == t;
      }
    }
  }
}
